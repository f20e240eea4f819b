/** How the runtime reads the native model catalog, and what that guarantees for the selector: every
    snapshot that reaches the presentation holds a catalog that was read here.
 */
module ModelCatalog {
  import opened Wrappers
  import opened ModelSelect

  const MAX_MODELS := 1024
  const MAX_STRING := 4096

  /** A field of a catalog entry. */
  datatype Raw = Missing | NullValue | Text(text: string) | OtherValue

  /** The context window: absent or null, a number, or something else. */
  datatype RawCount = NoCount | Count(count: nat) | BadCount

  datatype RawModel = RawModel(id: Raw, provider: Raw, name: Raw, context: RawCount)

  // ---------------------------------------------------------------- reading

  /** The UTF-8 form of a control character begins at `k`. */
  predicate ControlAt(s: string, k: nat)
    requires k < |s|
  {
    s[k] < ' ' || s[k] == '\U{7F}' || (s[k] == '\U{C2}' && k + 1 < |s| && '\U{80}' <= s[k + 1] < '\U{A0}')
  }

  predicate CheckedString(s: string) {
    s != "" && |s| <= MAX_STRING && forall k :: 0 <= k < |s| ==> !ControlAt(s, k)
  }

  function ReadString(v: Raw): Option<string> {
    if v.Text? && CheckedString(v.text) then Some(v.text) else None
  }

  /** An absent, null or empty provider is none. */
  function ReadProvider(v: Raw): Option<Option<string>> {
    match v
    case Missing => Some(None)
    case NullValue => Some(None)
    case Text(s) => if s == "" then Some(None) else if CheckedString(s) then Some(Some(s)) else None
    case OtherValue => None
  }

  function ReadIdentity(m: RawModel): Option<Identity> {
    if ReadString(m.id).Some? && ReadProvider(m.provider).Some?
    then Some(Identity(ReadString(m.id).value, ReadProvider(m.provider).value))
    else None
  }

  function ReadName(m: RawModel, id: string): Option<string> {
    if m.name == Missing then Some(id) else ReadString(m.name)
  }

  function ReadModel(m: RawModel): Option<Model> {
    match ReadIdentity(m)
    case None => None
    case Some(identity) =>
      if ReadName(m, identity.id).None? || m.context.BadCount? then None
      else Some(Model(identity, ReadName(m, identity.id).value, if m.context.Count? then m.context.count else 0))
  }

  predicate Knows(models: seq<Model>, identity: Identity) {
    exists i :: 0 <= i < |models| && models[i].identity == identity
  }

  /** The entries so far, read one by one; one bad or repeated entry refuses the catalog. */
  function ReadEntries(raw: seq<RawModel>): Option<seq<Model>> {
    if raw == [] then Some([])
    else
      var front := ReadEntries(raw[..|raw| - 1]);
      var m := ReadModel(raw[|raw| - 1]);
      if front.None? || m.None? || Knows(front.value, m.value.identity) then None else Some(front.value + [m.value])
  }

  /** `parse_models`, for the value of the catalog's array if it is one. */
  function ReadCatalog(raw: Option<seq<RawModel>>): Option<seq<Model>> {
    if raw.None? || |raw.value| > MAX_MODELS then None else ReadEntries(raw.value)
  }

  // ---------------------------------------------------------------- what a catalog that was read is like

  /** No empty id, no empty provider, and no identity twice. */
  ghost predicate Clean(models: seq<Model>) {
    && (forall i :: 0 <= i < |models| ==> models[i].identity.id != "" && models[i].identity.provider != Some(""))
    && (forall i, j :: 0 <= i < j < |models| ==> models[i].identity != models[j].identity)
  }

  lemma {:induction false} EntriesAreClean(raw: seq<RawModel>)
    requires ReadEntries(raw).Some?
    ensures Clean(ReadEntries(raw).value) && |ReadEntries(raw).value| == |raw|
    decreases |raw|
  {
    hide CheckedString;
    if raw != [] {
      EntriesAreClean(raw[..|raw| - 1]);
      var m := ReadModel(raw[|raw| - 1]).value;
      IdentityIsClean(raw[|raw| - 1]);
      hide ReadModel;
      assert ReadEntries(raw).value == ReadEntries(raw[..|raw| - 1]).value + [m];
    }
  }

  /** An entry that can be read: strings are not empty, not too long and free of control characters; only
      the id is required, and an empty provider counts as none. */
  predicate Readable(m: RawModel) {
    && m.id.Text? && CheckedString(m.id.text)
    && (m.provider.Missing? || m.provider.NullValue?
        || (m.provider.Text? && (m.provider.text == "" || CheckedString(m.provider.text))))
    && (m.name.Missing? || (m.name.Text? && CheckedString(m.name.text)))
    && !m.context.BadCount?
  }

  function NamedBy(m: RawModel): Identity
    requires Readable(m)
  {
    Identity(m.id.text, if m.provider.Text? && m.provider.text != "" then Some(m.provider.text) else None)
  }

  /** What an entry becomes; a missing name is the id. */
  function ModelFrom(m: RawModel): Model
    requires Readable(m)
  {
    Model(NamedBy(m), if m.name.Text? then m.name.text else m.id.text, if m.context.Count? then m.context.count else 0)
  }

  lemma ModelExactly(m: RawModel)
    ensures ReadModel(m).Some? <==> Readable(m)
    ensures Readable(m) ==> ReadModel(m).value == ModelFrom(m)
  {
    hide CheckedString;
  }

  /** No two entries name the same model. */
  ghost predicate AllNew(raw: seq<RawModel>)
    requires forall k :: 0 <= k < |raw| ==> Readable(raw[k])
  {
    forall i, j :: 0 <= i < j < |raw| ==> NamedBy(raw[i]) != NamedBy(raw[j])
  }

  ghost predicate AllReadable(raw: seq<RawModel>) {
    forall k :: 0 <= k < |raw| ==> Readable(raw[k])
  }

  lemma {:induction false} EntriesExactly(raw: seq<RawModel>)
    ensures ReadEntries(raw).Some? <==> AllReadable(raw) && AllNew(raw)
    ensures ReadEntries(raw).Some? ==>
              |ReadEntries(raw).value| == |raw|
              && forall k :: 0 <= k < |raw| ==> Readable(raw[k]) && ReadEntries(raw).value[k] == ModelFrom(raw[k])
    decreases |raw|
  {
    if raw != [] {
      var n := |raw| - 1;
      EntriesExactly(raw[..n]);
      ModelExactly(raw[n]);
      hide ReadModel, Readable, CheckedString;
      assert forall k :: 0 <= k < n ==> raw[..n][k] == raw[k];
      if AllReadable(raw[..n]) && Readable(raw[n]) && ReadEntries(raw[..n]).Some? {
        NewIsUnknown(raw, ReadEntries(raw[..n]).value);
      }
    }
  }

  lemma NewIsUnknown(raw: seq<RawModel>, front: seq<Model>)
    requires raw != [] && AllReadable(raw) && |front| == |raw| - 1
    requires forall k :: 0 <= k < |front| ==> front[k] == ModelFrom(raw[k])
    ensures Knows(front, NamedBy(raw[|raw| - 1])) <==>
              exists i :: 0 <= i < |front| && NamedBy(raw[i]) == NamedBy(raw[|raw| - 1])
  {
    hide CheckedString, Readable;
  }

  /** A catalog is accepted exactly when it is an array of at most 1024 readable entries that name
      different models, and it then holds just those models in their order. */
  lemma AcceptedExactly(raw: Option<seq<RawModel>>)
    ensures ReadCatalog(raw).Some? <==> raw.Some? && |raw.value| <= 1024 && AllReadable(raw.value) && AllNew(raw.value)
    ensures ReadCatalog(raw).Some? ==>
              |ReadCatalog(raw).value| == |raw.value|
              && forall k :: 0 <= k < |raw.value| ==>
                   Readable(raw.value[k]) && ReadCatalog(raw).value[k] == ModelFrom(raw.value[k])
  {
    if raw.Some? { EntriesExactly(raw.value); }
    hide ReadEntries, Readable, AllReadable, AllNew, ModelFrom;
  }

  lemma IdentityIsClean(m: RawModel)
    requires ReadModel(m).Some?
    ensures ReadModel(m).value.identity.id != "" && ReadModel(m).value.identity.provider != Some("")
  {
  }

  /** Every catalog that the runtime accepts: with a spelling collision no model is advertised; without
      one every model is, and every value that the client can pick leads the setter back to exactly the
      model it was printed from. */
  lemma CatalogsRoundTrip(raw: Option<seq<RawModel>>, value: string)
    requires ReadCatalog(raw).Some?
    ensures var c := ReadCatalog(raw).value;
            && (Collides(c) ==> Offered(c) == NoSelect)
            && (!Collides(c) ==> && (forall i :: 0 <= i < |c| ==> Advertised(Offered(c), Printed(c[i])))
                                 && (Advertised(Offered(c), value) ==>
                                       exists i :: 0 <= i < |c| && Printed(c[i]) == value
                                                && Resolve(c, value) == Found(c[i].identity)))
  {
    hide Offered, Advertised, Collides, Resolve, Printed, ReadEntries;
    EntriesAreClean(raw.value);
    var c := ReadCatalog(raw).value;
    if Collides(c) {
      CollisionAdvertisesNothing(c, value);
    } else {
      forall i | 0 <= i < |c| ensures Advertised(Offered(c), Printed(c[i])) { OfferedValues(c, Printed(c[i])); }
      OfferedValues(c, value);
      if Advertised(Offered(c), value) {
        var i :| 0 <= i < |c| && c[i].identity.id != "" && Printed(c[i]) == value;
        ModelResolves(c, i);
      }
    }
  }

  // ---------------------------------------------------------------- the loop

  method ParseModels(raw: Option<seq<RawModel>>) returns (r: Option<seq<Model>>)
    ensures r == ReadCatalog(raw)
  {
    if raw == None { return None; }
    if |raw.value| > MAX_MODELS { return None; }
    var models: seq<Model> := [];
    hide ReadModel, Knows;
    for k := 0 to |raw.value|
      invariant ReadEntries(raw.value[..k]) == Some(models)
    {
      assert raw.value[..k + 1][..k] == raw.value[..k];
      var m := ReadModel(raw.value[k]);
      var known := m.Some? && Knows(models, m.value.identity);
      if m.None? || known {
        RefusedStays(raw.value, k + 1);
        return None;
      }
      models := models + [m.value];
    }
    assert raw.value[..|raw.value|] == raw.value;
    return Some(models);
  }

  lemma {:induction false} RefusedStays(raw: seq<RawModel>, k: nat)
    requires k <= |raw| && ReadEntries(raw[..k]).None?
    ensures ReadEntries(raw).None?
    decreases |raw|
  {
    hide ReadModel, Knows;
    if k == |raw| {
      assert raw[..k] == raw;
    } else {
      assert raw[..|raw| - 1][..k] == raw[..k];
      RefusedStays(raw[..|raw| - 1], k);
    }
  }
}
