/**
 * The page's model loader: before anything is fetched for real, each of the
 * four artifacts is sniffed for a reference to external weight files, in a
 * fixed order, and the first one found stops loading altogether.
 */
module Loader {
  import opened Wrappers
  import opened Text

  /** The four pipeline stages, each backed by one model file. */
  datatype Artifact = TextEncoder | Unet | VaeDecoder | SafetyChecker

  /** The order of the `modelPaths` entries, which is the order they are checked in. */
  const Artifacts: seq<Artifact> := [TextEncoder, Unet, VaeDecoder, SafetyChecker]

  /** Position of an artifact in `Artifacts`. */
  function Rank(a: Artifact): (r: nat)
    ensures r < |Artifacts| && Artifacts[r] == a
  {
    match a
    case TextEncoder => 0
    case Unet => 1
    case VaeDecoder => 2
    case SafetyChecker => 3
  }

  /** The object key naming each artifact. */
  function Key(a: Artifact): string {
    match a
    case TextEncoder => "text"
    case Unet => "unet"
    case VaeDecoder => "vae"
    case SafetyChecker => "safety"
  }

  newtype byte = x: int | 0 <= x < 256

  /** What a `fetch` of an artifact gives: a rejected promise, or a response with its status flag and body. */
  datatype FetchResponse = FetchThrew | Response(ok: bool, body: seq<byte>)

  /** Only the head of the file is examined. */
  const SniffLength: nat := 1024

  /** The marker an ONNX file carries when it refers to external weights. */
  const Marker: string := "external_data"

  /**
   * The head of the body as text. Decoding as UTF-8 keeps every ASCII byte as
   * its own character and never produces an ASCII character from other bytes,
   * so for an ASCII marker it is enough to map each byte to one character.
   */
  function HeadText(body: seq<byte>): (s: string)
    ensures |s| == if |body| < SniffLength then |body| else SniffLength
    ensures forall i :: 0 <= i < |s| ==> s[i] as int == body[i] as int
  {
    var n := if |body| < SniffLength then |body| else SniffLength;
    seq(n, i requires 0 <= i < n => body[i] as int as char)
  }

  /**
   * `hasExternalData`: true when the response is ok and `/external_data/i`
   * matches the head of the body; a failed request or a non-ok status counts as
   * no external data.
   */
  function HasExternalData(r: FetchResponse): bool {
    match r
    case FetchThrew => false
    case Response(ok, body) => ok && ContainsCI(HeadText(body), Marker)
  }

  /** ASCII lower-casing of a byte. */
  function FoldByte(b: byte): byte {
    if 65 <= b <= 90 then b + 32 else b
  }

  /** The marker, ignoring ASCII case, occupies bytes `k` to `k + 12` of the body. */
  predicate MarkerBytesAt(body: seq<byte>, k: nat) {
    k + |Marker| <= |body| && forall j :: 0 <= j < |Marker| ==> FoldByte(body[k + j]) as int == Marker[j] as int
  }

  /**
   * The sniff stated on bytes: the artifact is flagged exactly when the fetch
   * succeeded with an ok status and the marker, in any case, lies wholly within
   * the first 1024 bytes.
   */
  lemma HasExternalDataIff(r: FetchResponse)
    ensures HasExternalData(r) <==>
      r.Response? && r.ok && exists k: nat :: k + |Marker| <= SniffLength && MarkerBytesAt(r.body, k)
  {
    if r.Response? && r.ok {
      var s := HeadText(r.body);
      ContainsCIIff(s, Marker);
      forall k: nat
        ensures MatchesAt(s, k, Marker) <==> k + |Marker| <= SniffLength && MarkerBytesAt(r.body, k)
      {
        if k + |Marker| <= |s| {
          forall j | 0 <= j < |Marker|
            ensures Lower(s[k + j]) == Lower(Marker[j]) <==> FoldByte(r.body[k + j]) as int == Marker[j] as int
          {
            assert Lower(Marker[j]) == Marker[j];
            assert s[k + j] as int == r.body[k + j] as int;
          }
        }
      }
    }
  }

  /**
   * The gate loop: sniffs the artifacts one after another in the fixed order
   * and stops at the first that refers to external weights. Returns that
   * artifact, if any, and the artifacts actually fetched.
   */
  method FirstExternal(probe: Artifact -> FetchResponse) returns (offender: Option<Artifact>, probed: seq<Artifact>)
    ensures offender.Some? ==> HasExternalData(probe(offender.value))
    ensures offender.Some? ==> forall a :: Rank(a) < Rank(offender.value) ==> !HasExternalData(probe(a))
    ensures offender.None? ==> forall a :: !HasExternalData(probe(a))
    ensures probed == if offender.Some? then Artifacts[..Rank(offender.value) + 1] else Artifacts
  {
    probed := [];
    var i := 0;
    while i < |Artifacts|
      invariant 0 <= i <= |Artifacts|
      invariant probed == Artifacts[..i]
      invariant forall j :: 0 <= j < i ==> !HasExternalData(probe(Artifacts[j]))
    {
      var a := Artifacts[i];
      probed := probed + [a];
      if HasExternalData(probe(a)) {
        assert Rank(a) == i;
        assert probed == Artifacts[..i + 1];
        return Some(a), probed;
      }
      i := i + 1;
    }
    forall a
      ensures !HasExternalData(probe(a))
    {
      assert Artifacts[Rank(a)] == a;
    }
    assert probed == Artifacts;
    return None, probed;
  }
}
