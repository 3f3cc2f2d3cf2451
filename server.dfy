/**
 * The status server: it loads the four sessions one after another at start-up,
 * keeping going past failures, and `GET /status` reports each stored record.
 */
module Server {
  import opened Wrappers
  import opened Loader

  /** One input or output as `getInputs()` / `getOutputs()` describe it. */
  datatype IoMeta = IoMeta(name: string, shape: seq<int>, elemType: string)

  /** Calling `getInputs()` or `getOutputs()`: a list, or a thrown error (as `String(e)`). */
  datatype Listing = Listed(entries: seq<IoMeta>) | ListingThrew(error: string)

  /** A server-side session: name arrays when the runtime provides them, and its introspection calls. */
  datatype Handle = Handle(
    inputNames: Option<seq<string>>, outputNames: Option<seq<string>>,
    getInputs: Listing, getOutputs: Listing)

  /** `ort.InferenceSession.create` on the server: a session, or an error (as `String(e)`). */
  datatype CreateResult = CreatedHandle(handle: Handle) | CreateThrew(error: string)

  /** What `sessions[key]` holds: nothing, an `{error}` record, or a session. */
  datatype Record = Missing | ErrorRecord(error: string) | Live(handle: Handle)

  /** The `inputs`/`outputs` reported: the name array, or the mapped metadata list. */
  datatype Ports = Names(names: seq<string>) | Metas(metas: seq<IoMeta>)

  /** A status entry: `{ok: false, error}` or `{ok: true, inputs, outputs}`. */
  datatype Health = NotOk(error: string) | Healthy(inputs: Ports, outputs: Ports)

  const NotLoaded: string := "not loaded"

  /** What `String(e)` gives when `getInputs` is looked up on an `{error: ""}` record. */
  const NoGetInputs: string := "TypeError: sess.getInputs is not a function"

  /** The record `loadSessions` stores for one creation attempt. */
  function RecordOf(c: CreateResult): Record {
    match c
    case CreatedHandle(h) => Live(h)
    case CreateThrew(e) => ErrorRecord(e)
  }

  /** `sess.inputNames || sess.getInputs().map(...)`: the names if present, otherwise the listing. */
  function Introspect(names: Option<seq<string>>, listing: Listing): Result<Ports, string> {
    if names.Some? then Success(Names(names.value))
    else match listing
      case Listed(entries) => Success(Metas(entries))
      case ListingThrew(e) => Failure(e)
  }

  /**
   * The per-record body of the `/status` loop. A missing record reports
   * "not loaded"; an `{error}` record with a non-empty message reports it; an
   * `{error: ""}` record is not caught by the error test and fails in
   * introspection instead; a session reports its inputs and outputs, or the
   * error its introspection threw (inputs are examined before outputs).
   */
  function HealthOf(r: Record): (h: Health)
    ensures h.Healthy? <==>
      && r.Live?
      && Introspect(r.handle.inputNames, r.handle.getInputs).Success?
      && Introspect(r.handle.outputNames, r.handle.getOutputs).Success?
    ensures r.Missing? ==> h == NotOk(NotLoaded)
    ensures r.ErrorRecord? && r.error != "" ==> h == NotOk(r.error)
    ensures r.Live? && r.handle.inputNames.Some? && r.handle.outputNames.Some? ==>
      h == Healthy(Names(r.handle.inputNames.value), Names(r.handle.outputNames.value))
    ensures h.Healthy? ==>
      h == Healthy(Introspect(r.handle.inputNames, r.handle.getInputs).value,
                   Introspect(r.handle.outputNames, r.handle.getOutputs).value)
    ensures r.Live? && Introspect(r.handle.inputNames, r.handle.getInputs).Failure? ==>
      h == NotOk(Introspect(r.handle.inputNames, r.handle.getInputs).error)
    ensures
      && r.Live?
      && Introspect(r.handle.inputNames, r.handle.getInputs).Success?
      && Introspect(r.handle.outputNames, r.handle.getOutputs).Failure?
      ==> h == NotOk(Introspect(r.handle.outputNames, r.handle.getOutputs).error)
    ensures r == ErrorRecord("") ==> h == NotOk(NoGetInputs)
  {
    match r
    case Missing => NotOk(NotLoaded)
    case ErrorRecord(e) => if e != "" then NotOk(e) else NotOk(NoGetInputs)
    case Live(handle) =>
      match Introspect(handle.inputNames, handle.getInputs)
      case Failure(e) => NotOk(e)
      case Success(inputs) =>
        match Introspect(handle.outputNames, handle.getOutputs)
        case Failure(e) => NotOk(e)
        case Success(outputs) => Healthy(inputs, outputs)
  }

  /** A session whose creation threw reports `ok: false` with that error, or an error of its own when the message is empty. */
  lemma FailedLoadReportsError(c: CreateResult)
    requires c.CreateThrew?
    ensures HealthOf(RecordOf(c)).NotOk?
    ensures c.error != "" ==> HealthOf(RecordOf(c)) == NotOk(c.error)
  {
  }

  /** `Object.entries` order after storing under `k`: a new key goes last, an existing one keeps its place. */
  function Stored(order: seq<Artifact>, k: Artifact): seq<Artifact> {
    if k in order then order else order + [k]
  }

  /** Key order after storing under each of `keys` in turn. */
  function StoredAll(order: seq<Artifact>, keys: seq<Artifact>): seq<Artifact> {
    if keys == [] then order else Stored(StoredAll(order, keys[..|keys| - 1]), keys[|keys| - 1])
  }

  /** Storing under one more key extends the key order by that one store. */
  lemma StoredAllStep(order: seq<Artifact>, keys: seq<Artifact>, i: nat)
    requires i < |keys|
    ensures StoredAll(order, keys[..i + 1]) == Stored(StoredAll(order, keys[..i]), keys[i])
  {
    assert keys[..i + 1][..i] == keys[..i];
  }

  /** On a fresh server the keys end up in the order text, unet, vae, safety. */
  lemma FreshLoadOrder()
    ensures StoredAll([], Artifacts) == Artifacts
  {
    var a := Artifacts;
    assert a[..1] == [TextEncoder] && a[..1][..0] == [];
    assert StoredAll([], a[..1]) == [TextEncoder];
    assert a[..2] == [TextEncoder, Unet] && a[..2][..1] == a[..1];
    assert StoredAll([], a[..2]) == [TextEncoder, Unet];
    assert a[..3] == [TextEncoder, Unet, VaeDecoder] && a[..3][..2] == a[..2];
    assert StoredAll([], a[..3]) == [TextEncoder, Unet, VaeDecoder];
    assert a[..4][..3] == a[..3] && a[..4] == a;
  }

  /** `order` lists the keys of `sessions`, each once. */
  ghost predicate Consistent(sessions: map<Artifact, Record>, order: seq<Artifact>) {
    (forall k :: k in sessions <==> k in order) &&
    (forall i, j :: 0 <= i < j < |order| ==> order[i] != order[j])
  }

  /** Storing under a key keeps the key order consistent with the object. */
  lemma StoreConsistent(sessions: map<Artifact, Record>, order: seq<Artifact>, k: Artifact, r: Record)
    requires Consistent(sessions, order)
    ensures Consistent(sessions[k := r], Stored(order, k))
  {
  }

  /** The module-level `sessions` object, with its keys in insertion order. */
  class StatusServer {
    var sessions: map<Artifact, Record>
    var order: seq<Artifact>

    ghost predicate Valid()
      reads this
    {
      Consistent(sessions, order)
    }

    constructor ()
      ensures Valid() && sessions == map[] && order == []
    {
      sessions, order := map[], [];
    }

    /**
     * `loadSessions`: visits the artifacts in order and stores, for each, the
     * session or the `{error}` record; a failure on one key does not stop the
     * later ones.
     */
    method LoadSessions(create: Artifact -> CreateResult)
      requires Valid()
      modifies this
      ensures Valid()
      ensures forall a :: a in sessions && sessions[a] == RecordOf(create(a))
      ensures order == StoredAll(old(order), Artifacts)
    {
      var stored, keys, start := sessions, order, order;
      var i := 0;
      while i < |Artifacts|
        invariant 0 <= i <= |Artifacts|
        invariant Consistent(stored, keys)
        invariant forall a :: Rank(a) < i ==> a in stored && stored[a] == RecordOf(create(a))
        invariant keys == StoredAll(start, Artifacts[..i])
      {
        var key := Artifacts[i];
        assert Rank(key) == i;
        StoredAllStep(start, Artifacts, i);
        StoreConsistent(stored, keys, key, RecordOf(create(key)));
        stored := stored[key := RecordOf(create(key))];
        keys := Stored(keys, key);
        i := i + 1;
      }
      assert Artifacts[..i] == Artifacts;
      sessions, order := stored, keys;
    }

    /**
     * `GET /status`: one entry per stored key, in key order, each reporting
     * the health of that key's record alone. Nothing is modified.
     */
    method Status() returns (info: seq<(string, Health)>)
      requires Valid()
      ensures |info| == |order|
      ensures forall i :: 0 <= i < |order| ==> info[i] == (Key(order[i]), HealthOf(sessions[order[i]]))
    {
      info := [];
      var i := 0;
      while i < |order|
        invariant 0 <= i <= |order|
        invariant |info| == i
        invariant forall j :: 0 <= j < i ==> info[j] == (Key(order[j]), HealthOf(sessions[order[j]]))
      {
        var k := order[i];
        info := info + [(Key(k), HealthOf(sessions[k]))];
        i := i + 1;
      }
    }
  }
}
