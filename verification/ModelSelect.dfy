/** The model selector: what is advertised to the client, grouped by provider, and what the setter
    makes of a value that comes back.
 */
module ModelSelect {
  import opened Wrappers

  datatype Identity = Identity(id: string, provider: Option<string>)

  datatype Model = Model(identity: Identity, name: string, context: nat)

  datatype Choice = Choice(value: string, name: string, context: nat)

  datatype Group = Group(provider: string, choices: seq<Choice>)

  /** The selector: left out, a flat list, or one group per provider. */
  datatype Select = NoSelect | Flat(choices: seq<Choice>) | Grouped(groups: seq<Group>)

  datatype Resolved = Found(identity: Identity) | Unknown | Ambiguous

  // ---------------------------------------------------------------- spelling and lookup

  /** How the setter spells an identity. */
  function ModelValue(i: Identity): string {
    match i.provider
    case Some(p) => p + "/" + i.id
    case None => i.id
  }

  /** A missing provider is presented as the empty one. */
  function ProviderOf(m: Model): string {
    if m.identity.provider.Some? then m.identity.provider.value else ""
  }

  /** How the selector spells it. */
  function Printed(m: Model): string {
    if ProviderOf(m) == "" then m.identity.id else ProviderOf(m) + "/" + m.identity.id
  }

  function Matches(models: seq<Model>, value: string): seq<Model> {
    if models == [] then []
    else
      var rest := Matches(models[1..], value);
      if ModelValue(models[0].identity) == value then [models[0]] + rest else rest
  }

  function Resolve(models: seq<Model>, value: string): Resolved {
    var m := Matches(models, value);
    if |m| == 1 then Found(m[0].identity) else if m == [] then Unknown else Ambiguous
  }

  predicate Collides(models: seq<Model>) {
    exists i, j :: 0 <= i < j < |models| && ModelValue(models[i].identity) == ModelValue(models[j].identity)
  }

  lemma {:induction false} NoMatch(models: seq<Model>, value: string)
    requires forall k :: 0 <= k < |models| ==> ModelValue(models[k].identity) != value
    ensures Matches(models, value) == []
    decreases |models|
  {
    if models != [] { NoMatch(models[1..], value); }
  }

  lemma {:induction false} OneMatch(models: seq<Model>, i: nat)
    requires i < |models| && !Collides(models)
    ensures Matches(models, ModelValue(models[i].identity)) == [models[i]]
    decreases |models|
  {
    hide *;
    var value, rest := ModelValue(models[i].identity), models[1..];
    HeadApart(models);
    RestDistinct(models);
    MatchHere(models, value);
    if i == 0 {
      NoMatch(rest, value);
    } else {
      OneMatch(rest, i - 1);
    }
  }

  lemma MatchHere(models: seq<Model>, value: string)
    requires models != []
    ensures ModelValue(models[0].identity) == value && Matches(models[1..], value) == [] ==>
              Matches(models, value) == [models[0]]
    ensures ModelValue(models[0].identity) != value ==> Matches(models, value) == Matches(models[1..], value)
  {
    hide ModelValue;
  }

  lemma HeadApart(models: seq<Model>)
    requires !Collides(models)
    ensures forall k :: 0 < k < |models| ==> ModelValue(models[k].identity) != ModelValue(models[0].identity)
    ensures models != [] ==>
              forall k :: 0 <= k < |models[1..]| ==>
                models[1..][k] == models[k + 1]
                && ModelValue(models[1..][k].identity) != ModelValue(models[0].identity)
  {
    hide ModelValue;
  }

  lemma RestDistinct(models: seq<Model>)
    requires models != [] && !Collides(models)
    ensures !Collides(models[1..])
  {
    var rest := models[1..];
    hide ModelValue;
    assert forall i :: 0 <= i < |rest| ==> rest[i] == models[i + 1];
  }

  /** The setter finds exactly the identity that it is given the spelling of. */
  lemma ValueResolves(models: seq<Model>, i: nat)
    requires i < |models| && !Collides(models)
    ensures Resolve(models, ModelValue(models[i].identity)) == Found(models[i].identity)
  {
    OneMatch(models, i);
    hide ModelValue, Collides, Matches;
  }

  /** What the setter makes of any value: a model that alone is spelled so is found, a value that several
      models share is refused as ambiguous, and any other value as unknown. */
  lemma ResolvesExactly(models: seq<Model>, value: string)
    ensures Resolve(models, value) == Unknown <==>
              forall i :: 0 <= i < |models| ==> ModelValue(models[i].identity) != value
    ensures Resolve(models, value) == Ambiguous <==>
              exists i, j :: 0 <= i < j < |models| && ModelValue(models[i].identity) == value
                             && ModelValue(models[j].identity) == value
    ensures forall identity :: Resolve(models, value) == Found(identity) ==>
              exists i :: 0 <= i < |models| && models[i].identity == identity && ModelValue(identity) == value
  {
    var m := Matches(models, value);
    if m != [] {
      var i := FirstMatch(models, value);
      assert ModelValue(models[i].identity) == value;
      if |m| > 1 { var j, k := TwoMatches(models, value); }
    } else if i :| 0 <= i < |models| && ModelValue(models[i].identity) == value {
      MatchIsFound(models, value, i);
      assert false;
    }
    if i, j :| 0 <= i < j < |models| && ModelValue(models[i].identity) == value &&
               ModelValue(models[j].identity) == value {
      BothMatch(models, value, i, j);
    }
    hide ModelValue, Matches;
  }

  lemma {:induction false} FirstMatch(models: seq<Model>, value: string) returns (i: nat)
    requires Matches(models, value) != []
    ensures i < |models| && models[i] == Matches(models, value)[0] && ModelValue(models[i].identity) == value
    decreases |models|
  {
    hide ModelValue;
    i := 0;
    if ModelValue(models[0].identity) != value {
      i := FirstMatch(models[1..], value);
      i := i + 1;
    }
  }

  lemma {:induction false} TwoMatches(models: seq<Model>, value: string) returns (i: nat, j: nat)
    requires |Matches(models, value)| > 1
    ensures i < j < |models| && ModelValue(models[i].identity) == value && ModelValue(models[j].identity) == value
    decreases |models|
  {
    hide ModelValue;
    if ModelValue(models[0].identity) == value {
      var k := FirstMatch(models[1..], value);
      i, j := 0, k + 1;
    } else {
      i, j := TwoMatches(models[1..], value);
      i, j := i + 1, j + 1;
    }
  }

  lemma {:induction false} MatchIsFound(models: seq<Model>, value: string, i: nat)
    requires i < |models| && ModelValue(models[i].identity) == value
    ensures Matches(models, value) != []
    decreases |models|
  {
    hide ModelValue;
    if i > 0 { MatchIsFound(models[1..], value, i - 1); }
  }

  lemma {:induction false} BothMatch(models: seq<Model>, value: string, i: nat, j: nat)
    requires i < j < |models| && ModelValue(models[i].identity) == value && ModelValue(models[j].identity) == value
    ensures |Matches(models, value)| > 1
    decreases |models|
  {
    hide ModelValue;
    if i == 0 {
      MatchIsFound(models[1..], value, j - 1);
    } else {
      BothMatch(models[1..], value, i - 1, j - 1);
    }
  }

  // ---------------------------------------------------------------- the selector

  function ChoiceOf(m: Model): Choice {
    Choice(Printed(m), m.name, m.context)
  }

  function AddChoice(groups: seq<Group>, provider: string, c: Choice): seq<Group> {
    if groups == [] then [Group(provider, [c])]
    else if groups[0].provider == provider then [groups[0].(choices := groups[0].choices + [c])] + groups[1..]
    else [groups[0]] + AddChoice(groups[1..], provider, c)
  }

  /** The groups after all the models, in the order in which their providers first appear. */
  function Groups(models: seq<Model>): seq<Group> {
    if models == [] then []
    else
      var rest := Groups(models[..|models| - 1]);
      var m := models[|models| - 1];
      if m.identity.id == "" then rest else AddChoice(rest, ProviderOf(m), ChoiceOf(m))
  }

  function SelectOf(models: seq<Model>): Select {
    var groups := Groups(models);
    if groups == [] then NoSelect else if |groups| == 1 then Flat(groups[0].choices) else Grouped(groups)
  }

  /** What `present` offers: nothing at all when two models share a spelling. */
  function Offered(catalog: seq<Model>): Select {
    SelectOf(if Collides(catalog) then [] else catalog)
  }

  /** A value that the client can pick. */
  predicate Advertised(s: Select, value: string) {
    match s
    case NoSelect => false
    case Flat(choices) => exists c :: c in choices && c.value == value
    case Grouped(groups) => exists g, c :: g in groups && c in g.choices && c.value == value
  }

  // ---------------------------------------------------------------- grouping loses nothing

  /** The choices of one provider, in catalog order. */
  function ChoicesOf(models: seq<Model>, provider: string): seq<Choice> {
    if models == [] then []
    else
      var rest := ChoicesOf(models[..|models| - 1], provider);
      var m := models[|models| - 1];
      if m.identity.id != "" && ProviderOf(m) == provider then rest + [ChoiceOf(m)] else rest
  }

  /** The choices of the group of that provider. */
  function ChoicesIn(groups: seq<Group>, provider: string): seq<Choice> {
    if groups == [] then []
    else if groups[0].provider == provider then groups[0].choices
    else ChoicesIn(groups[1..], provider)
  }

  function Providers(groups: seq<Group>): seq<string> {
    if groups == [] then [] else [groups[0].provider] + Providers(groups[1..])
  }

  predicate Distinct(groups: seq<Group>) {
    groups == [] || (groups[0].provider !in Providers(groups[1..]) && groups[0].choices != [] && Distinct(groups[1..]))
  }

  lemma {:induction false} AddKeeps(groups: seq<Group>, provider: string, c: Choice)
    requires Distinct(groups)
    ensures var r := AddChoice(groups, provider, c);
            && Distinct(r)
            && Providers(r) == (if provider in Providers(groups) then Providers(groups)
                               else Providers(groups) + [provider])
            && forall p :: ChoicesIn(r, p) == if p == provider then ChoicesIn(groups, p) + [c] else ChoicesIn(groups, p)
    decreases |groups|
  {
    if groups != [] && groups[0].provider != provider {
      AddKeeps(groups[1..], provider, c);
    }
  }

  /** No option is lost, duplicated or moved across providers by the grouping: each provider has one
      group, never empty, with exactly its models in catalog order. */
  lemma {:induction false} GroupsPartition(models: seq<Model>, provider: string)
    ensures Distinct(Groups(models))
    ensures ChoicesIn(Groups(models), provider) == ChoicesOf(models, provider)
    decreases |models|
  {
    hide ChoiceOf, ProviderOf, Distinct;
    if models == [] {
      NoGroups();
    } else {
      var m := models[|models| - 1];
      GroupsPartition(models[..|models| - 1], provider);
      if m.identity.id != "" { AddKeeps(Groups(models[..|models| - 1]), ProviderOf(m), ChoiceOf(m)); }
    }
  }

  lemma NoGroups()
    ensures Distinct([])
  {
  }

  lemma {:induction false} GroupChoices(groups: seq<Group>, g: Group)
    requires Distinct(groups) && g in groups
    ensures ChoicesIn(groups, g.provider) == g.choices && g.provider in Providers(groups)
    decreases |groups|
  {
    if g != groups[0] {
      GroupChoices(groups[1..], g);
    }
  }

  lemma {:induction false} GroupOf(groups: seq<Group>, provider: string, c: Choice) returns (g: Group)
    requires c in ChoicesIn(groups, provider)
    ensures g in groups && c in g.choices
    decreases |groups|
  {
    if groups[0].provider == provider { g := groups[0]; } else { g := GroupOf(groups[1..], provider, c); }
  }

  lemma {:induction false} ChoiceFrom(models: seq<Model>, provider: string, c: Choice) returns (i: nat)
    requires c in ChoicesOf(models, provider)
    ensures i < |models| && models[i].identity.id != "" && ProviderOf(models[i]) == provider && ChoiceOf(models[i]) == c
    decreases |models|
  {
    hide ChoiceOf, ProviderOf;
    var n := |models| - 1;
    if c in ChoicesOf(models[..n], provider) { i := ChoiceFrom(models[..n], provider, c); } else { i := n; }
  }

  lemma {:induction false} ChoiceTo(models: seq<Model>, i: nat)
    requires i < |models| && models[i].identity.id != ""
    ensures ChoiceOf(models[i]) in ChoicesOf(models, ProviderOf(models[i]))
    decreases |models|
  {
    hide ChoiceOf, ProviderOf;
    if i < |models| - 1 { ChoiceTo(models[..|models| - 1], i); }
  }

  /** A missing provider counts as the empty one. */
  predicate ProviderIs(m: Model, provider: string) {
    m.identity.provider == Some(provider) || (m.identity.provider == None && provider == "")
  }

  /** What a provider's group offers: for each of its models with an id the spelling with the provider in
      front, if there is one, the model's name and its context, and nothing else. */
  lemma GroupShows(models: seq<Model>, provider: string, c: Choice)
    ensures c in ChoicesIn(Groups(models), provider) <==>
              exists i :: 0 <= i < |models| && models[i].identity.id != ""
                          && ProviderIs(models[i], provider)
                          && c == Choice((if provider == "" then "" else provider + "/") + models[i].identity.id,
                                         models[i].name, models[i].context)
  {
    GroupsPartition(models, provider);
    var choices := ChoicesOf(models, provider);
    forall i | 0 <= i < |models|
      ensures ChoiceOf(models[i]) ==
              Choice((if ProviderOf(models[i]) == "" then "" else ProviderOf(models[i]) + "/") + models[i].identity.id,
                     models[i].name, models[i].context)
    {
      assert "" + models[i].identity.id == models[i].identity.id;
    }
    assert forall m :: ProviderIs(m, provider) <==> ProviderOf(m) == provider;
    hide *;
    if c in choices {
      var i := ChoiceFrom(models, provider, c);
    }
    forall i | 0 <= i < |models| && models[i].identity.id != "" && ProviderOf(models[i]) == provider
      ensures ChoiceOf(models[i]) in choices
    {
      ChoiceTo(models, i);
    }
  }

  predicate InGroups(groups: seq<Group>, value: string) {
    exists g, c :: g in groups && c in g.choices && c.value == value
  }

  lemma SelectShowsGroups(models: seq<Model>, value: string)
    ensures Advertised(SelectOf(models), value) <==> InGroups(Groups(models), value)
  {
    hide Groups;
    var groups := Groups(models);
    if |groups| == 1 {
      assert groups[0] in groups && forall g :: g in groups ==> g == groups[0];
    }
  }

  predicate Listed(models: seq<Model>, value: string) {
    exists i :: 0 <= i < |models| && models[i].identity.id != "" && Printed(models[i]) == value
  }

  /** The selector offers exactly the spellings of the models with an id. */
  lemma SelectIsListed(models: seq<Model>, value: string)
    ensures Advertised(SelectOf(models), value) <==> Listed(models, value)
  {
    hide SelectOf, Advertised, Groups, ChoicesOf, ChoicesIn, Printed, ProviderOf, Distinct;
    SelectShowsGroups(models, value);
    var groups := Groups(models);
    if InGroups(groups, value) {
      var g, c :| g in groups && c in g.choices && c.value == value;
      GroupsPartition(models, g.provider);
      GroupChoices(groups, g);
      var i := ChoiceFrom(models, g.provider, c);
      assert Printed(models[i]) == value;
    }
    if Listed(models, value) {
      var i :| 0 <= i < |models| && models[i].identity.id != "" && Printed(models[i]) == value;
      ChoiceTo(models, i);
      GroupsPartition(models, ProviderOf(models[i]));
      var g := GroupOf(groups, ProviderOf(models[i]), ChoiceOf(models[i]));
      assert g in groups && ChoiceOf(models[i]) in g.choices && ChoiceOf(models[i]).value == value;
    }
  }

  /** The provider of some model with an id. */
  predicate Provides(models: seq<Model>, provider: string) {
    exists i :: 0 <= i < |models| && models[i].identity.id != "" && ProviderIs(models[i], provider)
  }

  lemma ProvidersAre(models: seq<Model>, provider: string)
    ensures provider in Providers(Groups(models)) <==> Provides(models, provider)
  {
    GroupsPartition(models, provider);
    assert forall m :: ProviderIs(m, provider) <==> ProviderOf(m) == provider;
    hide *;
    if provider in Providers(Groups(models)) {
      var g := GroupNamed(Groups(models), provider);
      var i := ChoiceFrom(models, provider, ChoicesIn(Groups(models), provider)[0]);
      ProvidesAt(models, provider, i);
    }
    if Provides(models, provider) {
      var i := SomeProvider(models, provider);
      ChoiceTo(models, i);
      NoChoices(Groups(models), provider);
    }
  }

  lemma ProvidesAt(models: seq<Model>, provider: string, i: nat)
    requires i < |models| && models[i].identity.id != "" && ProviderIs(models[i], provider)
    ensures Provides(models, provider)
  {
    hide ProviderIs;
  }

  lemma SomeProvider(models: seq<Model>, provider: string) returns (i: nat)
    requires Provides(models, provider)
    ensures i < |models| && models[i].identity.id != "" && ProviderOf(models[i]) == provider
  {
    i :| 0 <= i < |models| && models[i].identity.id != "" && ProviderIs(models[i], provider);
  }

  lemma {:induction false} GroupNamed(groups: seq<Group>, provider: string) returns (g: Group)
    requires Distinct(groups) && provider in Providers(groups)
    ensures g in groups && g.provider == provider && ChoicesIn(groups, provider) == g.choices != []
    decreases |groups|
  {
    if groups[0].provider == provider { g := groups[0]; } else { g := GroupNamed(groups[1..], provider); }
  }

  lemma {:induction false} NoChoices(groups: seq<Group>, provider: string)
    ensures provider !in Providers(groups) ==> ChoicesIn(groups, provider) == []
    decreases |groups|
  {
    if groups != [] { NoChoices(groups[1..], provider); }
  }

  lemma {:induction false} ProvidersLength(groups: seq<Group>)
    ensures |Providers(groups)| == |groups|
    ensures forall k :: 0 <= k < |groups| ==> Providers(groups)[k] == groups[k].provider
    decreases |groups|
  {
    if groups != [] { ProvidersLength(groups[1..]); }
  }

  /** The form of the selector: left out without a model, flat when all models share one provider, and
      otherwise grouped, each group with the choices of its provider. */
  lemma SelectShape(models: seq<Model>)
    ensures SelectOf(models) == NoSelect <==> forall p :: !Provides(models, p)
    ensures SelectOf(models).Flat? ==>
              exists p :: Provides(models, p) && SelectOf(models).choices == ChoicesOf(models, p)
    ensures SelectOf(models).Flat? <==>
              exists p :: Provides(models, p) && forall q :: Provides(models, q) ==> q == p
    ensures SelectOf(models).Grouped? ==>
              forall g :: g in SelectOf(models).groups ==> g.choices == ChoicesOf(models, g.provider)
  {
    hide *;
    GroupCount(models);
    ShapeOf(models);
    GroupsShow(models);
  }

  lemma ShapeOf(models: seq<Model>)
    ensures SelectOf(models) ==
            var groups := Groups(models);
            if groups == [] then NoSelect else if |groups| == 1 then Flat(groups[0].choices) else Grouped(groups)
  {
    hide Groups;
  }

  lemma GroupsShow(models: seq<Model>)
    ensures forall g :: g in Groups(models) ==>
              g.choices == ChoicesOf(models, g.provider) && Provides(models, g.provider)
  {
    hide *;
    forall g | g in Groups(models)
      ensures g.choices == ChoicesOf(models, g.provider) && Provides(models, g.provider)
    {
      GroupsPartition(models, g.provider);
      GroupChoices(Groups(models), g);
      ProvidersAre(models, g.provider);
    }
  }

  lemma GroupCount(models: seq<Model>)
    ensures Groups(models) == [] <==> forall p :: !Provides(models, p)
    ensures |Groups(models)| == 1 <==> exists p :: Provides(models, p) && forall q :: Provides(models, q) ==> q == p
  {
    hide *;
    var groups := Groups(models);
    ProvidersLength(groups);
    forall p ensures Provides(models, p) <==> p in Providers(groups) { ProvidersAre(models, p); }
    GroupsPartition(models, "");
    if groups != [] {
      assert Providers(groups)[0] in Providers(groups);
      if |groups| > 1 {
        assert Providers(groups)[1] in Providers(groups);
        DistinctTwo(groups);
      }
    }
  }

  lemma DistinctTwo(groups: seq<Group>)
    requires Distinct(groups) && |groups| > 1
    ensures groups[0].provider != groups[1].provider
  {
    assert Providers(groups[1..])[0] == groups[1].provider;
  }

  // ---------------------------------------------------------------- the round trip

  /** Every advertised value leads the setter back to the identity that it was printed from. */
  ghost predicate RoundTrips(catalog: seq<Model>) {
    forall i ::
      0 <= i < |catalog| && catalog[i].identity.id != "" && Advertised(Offered(catalog), Printed(catalog[i])) ==>
        Resolve(catalog, Printed(catalog[i])) == Found(catalog[i].identity)
  }

  /** A provider that is present but empty. */
  predicate EmptyProvider(m: Model) {
    m.identity.id != "" && m.identity.provider == Some("")
  }

  lemma Spellings(m: Model)
    ensures m.identity.provider != Some("") ==> Printed(m) == ModelValue(m.identity)
    ensures m.identity.provider == Some("") ==>
              Printed(m) == m.identity.id && ModelValue(m.identity) == "/" + m.identity.id
  {
  }

  /** A catalog with any spelling collision advertises no model. */
  lemma CollisionAdvertisesNothing(catalog: seq<Model>, value: string)
    requires Collides(catalog)
    ensures Offered(catalog) == NoSelect && !Advertised(Offered(catalog), value)
  {
    assert Groups([]) == [];
  }

  /** Without a collision exactly the printed spellings of the models with an id are advertised. */
  lemma OfferedValues(catalog: seq<Model>, value: string)
    requires !Collides(catalog)
    ensures Advertised(Offered(catalog), value) <==> Listed(catalog, value)
  {
    SelectIsListed(catalog, value);
    hide Collides, SelectOf, Advertised, Listed;
  }

  /** The advertised values round-trip exactly when no model with an id has an empty provider. */
  lemma ValuesRoundTrip(catalog: seq<Model>)
    requires !Collides(catalog)
    ensures RoundTrips(catalog) <==> forall i :: 0 <= i < |catalog| ==> !EmptyProvider(catalog[i])
  {
    hide Collides, Offered, Advertised, Resolve, Printed, ModelValue;
    forall i | 0 <= i < |catalog| && catalog[i].identity.id != ""
      ensures Advertised(Offered(catalog), Printed(catalog[i]))
      ensures EmptyProvider(catalog[i]) <==> Resolve(catalog, Printed(catalog[i])) != Found(catalog[i].identity)
    {
      OfferedValues(catalog, Printed(catalog[i]));
      ModelResolves(catalog, i);
    }
  }

  lemma ModelResolves(catalog: seq<Model>, i: nat)
    requires i < |catalog| && !Collides(catalog) && catalog[i].identity.id != ""
    ensures EmptyProvider(catalog[i]) <==> Resolve(catalog, Printed(catalog[i])) != Found(catalog[i].identity)
  {
    hide Collides, Printed, ModelValue, Matches;
    Spellings(catalog[i]);
    if EmptyProvider(catalog[i]) {
      ResolvedIsSpelled(catalog, Printed(catalog[i]));
      Longer(catalog[i].identity.id);
    } else {
      ValueResolves(catalog, i);
    }
  }

  lemma Longer(id: string)
    ensures "/" + id != id
  {
    assert |"/" + id| == |id| + 1;
  }

  /** The setter only finds an identity that it spells the same way. */
  lemma ResolvedIsSpelled(models: seq<Model>, value: string)
    ensures Resolve(models, value).Found? ==> ModelValue(Resolve(models, value).identity) == value
  {
    MatchesSpell(models, value);
    hide ModelValue, Matches;
  }

  lemma {:induction false} MatchesSpell(models: seq<Model>, value: string)
    ensures forall m :: m in Matches(models, value) ==> ModelValue(m.identity) == value
    decreases |models|
  {
    hide ModelValue;
    if models != [] { MatchesSpell(models[1..], value); }
  }

  /** With an empty provider two models can even be advertised under one value, without a collision
      being noticed; the value selects the other one. */
  lemma EmptyProviderFails(a: Model, b: Model)
    requires a.identity == Identity("m", None) && b.identity == Identity("m", Some(""))
    ensures !Collides([a, b]) && Printed(a) == Printed(b) && Resolve([a, b], Printed(b)) == Found(a.identity)
  {
    assert ModelValue(a.identity) == "m" && ModelValue(b.identity) == "/m";
    Longer("m");
    assert [a, b][1..] == [b] && [b][1..] == [];
    assert Matches([b], "m") == [];
  }

  // ---------------------------------------------------------------- the loops

  /** `models.any(..)` over a set of the spellings met so far. */
  method HasCollision(models: seq<Model>) returns (found: bool)
    ensures found == Collides(models)
  {
    hide ModelValue;
    var values: set<string> := {};
    for k := 0 to |models|
      invariant forall v :: v in values <==> exists i :: 0 <= i < k && ModelValue(models[i].identity) == v
      invariant forall i, j :: 0 <= i < j < k ==> ModelValue(models[i].identity) != ModelValue(models[j].identity)
    {
      var v := ModelValue(models[k].identity);
      if v in values { return true; }
      values := values + {v};
    }
    return false;
  }

  /** The grouping loop: find the provider's group and push, or open a new group. */
  method BuildGroups(models: seq<Model>) returns (groups: seq<Group>)
    ensures groups == Groups(models)
  {
    hide ChoiceOf, AddChoice;
    groups := [];
    for k := 0 to |models|
      invariant groups == Groups(models[..k])
    {
      assert models[..k + 1][..k] == models[..k];
      var m := models[k];
      if m.identity.id != "" {
        groups := PushChoice(groups, ProviderOf(m), ChoiceOf(m));
      }
    }
    assert models[..|models|] == models;
  }

  method PushChoice(groups: seq<Group>, provider: string, c: Choice) returns (r: seq<Group>)
    ensures r == AddChoice(groups, provider, c)
  {
    var k := 0;
    while k < |groups| && groups[k].provider != provider
      invariant k <= |groups| && AddChoice(groups, provider, c) == groups[..k] + AddChoice(groups[k..], provider, c)
    {
      assert groups[k..][1..] == groups[k + 1..] && groups[..k] + [groups[k]] == groups[..k + 1];
      k := k + 1;
    }
    if k < |groups| {
      assert groups[k..][0] == groups[k] && groups[k..][1..] == groups[k + 1..];
      r := groups[k := groups[k].(choices := groups[k].choices + [c])];
    } else {
      r := groups + [Group(provider, [c])];
    }
  }
}
