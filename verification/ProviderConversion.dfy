/** Conversion of a DBaaSProvider between v1alpha1 and v1beta1. Converting back appends parameters in the arbitrary
    order of a map iteration, so it is a relation. */
module ProviderConversion {
  import opened ProviderFields

  datatype ObjectMeta = ObjectMeta(name: Provider, labels: map<string, string>)

  datatype ProviderInfo =
    ProviderInfo(name: string, displayName: string, displayDescription: string, iconData: string, iconType: string)

  /** The spec fields both versions have. */
  datatype Common = Common(
    provider: ProviderInfo,
    inventoryKind: string,
    connectionKind: string,
    instanceKind: string,
    credentialFields: seq<CredentialField>,
    allowsFreeTrial: bool,
    externalProvisionURL: string,
    externalProvisionDescription: string)

  datatype ParameterSpec =
    ParameterSpec(name: Field, displayName: string, kind: string, required: bool, defaultValue: string)

  datatype Dependency = Dependency(field: Parameter, value: string)
  datatype Choice = Choice(value: string, displayValue: string)
  datatype Conditional = Conditional(dependencies: seq<Dependency>, options: seq<Choice>, defaultValue: string)
  datatype Form = Form(displayName: string, helpText: string, conditionalData: seq<Conditional>)

  datatype AlphaProvider =
    AlphaProvider(meta: ObjectMeta, common: Common, parameterSpecs: seq<ParameterSpec>, conditions: seq<string>)

  datatype BetaProvider =
    BetaProvider(meta: ObjectMeta, groupVersion: string, common: Common, parameters: map<Parameter, Form>,
                 conditions: seq<string>)

  const ALPHA_VERSION := "dbaas.redhat.com/v1alpha1"

  /** The parameters converting back keeps. */
  const KEPT := {CloudProvider, Name, DatabaseType, TeamProject}

  const PLAN_FORM :=
    Form("Hosting plan", "", [Conditional([], [Choice(FREE_TRIAL, "Free trial")], FREE_TRIAL)])

  // ----- v1alpha1 to v1beta1 -----

  function DefaultCloud(spec: ParameterSpec): string {
    if spec.defaultValue != "" then spec.defaultValue else "AWS"
  }

  function Render(parameter: Parameter, spec: ParameterSpec): Form {
    if parameter == CloudProvider then
      var value := DefaultCloud(spec);
      Form(spec.displayName, "", [Conditional([Dependency(Plan, FREE_TRIAL)], [Choice(value, value)], value)])
    else Form(spec.displayName, "", [])
  }

  /** The parameters after the specs have been handled in order; a later spec overwrites an earlier one. */
  function Parameters(table: Table, provider: Provider, specs: seq<ParameterSpec>): map<Parameter, Form> {
    if specs == [] then map[]
    else
      var before := Parameters(table, provider, specs[..|specs| - 1]);
      var last := specs[|specs| - 1];
      var parameter := NameTo(table, provider, last.name);
      if parameter == NO_PARAMETER then before else before[parameter := Render(parameter, last)]
  }

  function ToBeta(table: Table, src: AlphaProvider): BetaProvider {
    BetaProvider(src.meta, ALPHA_VERSION, src.common,
                 Parameters(table, src.meta.name, src.parameterSpecs)[Plan := PLAN_FORM], [])
  }

  method ConvertTo(table: Table, src: AlphaProvider) returns (dst: BetaProvider)
    ensures dst == ToBeta(table, src)
  {
    var fields: seq<CredentialField> := [];
    for i := 0 to |src.common.credentialFields|
      invariant fields == src.common.credentialFields[..i]
    {
      fields := fields + [src.common.credentialFields[i]];
    }
    var parameters: map<Parameter, Form> := map[];
    for i := 0 to |src.parameterSpecs|
      invariant parameters == Parameters(table, src.meta.name, src.parameterSpecs[..i])
    {
      var v := src.parameterSpecs[i];
      assert src.parameterSpecs[..i + 1][..i] == src.parameterSpecs[..i];
      var name := ConvertNameTo(table, src.meta.name, v.name);
      if name == NO_PARAMETER {
        continue;
      }
      if name == CloudProvider {
        var value := "AWS";
        if |v.defaultValue| > 0 {
          value := v.defaultValue;
        }
        parameters := parameters[name := Form(v.displayName, "",
          [Conditional([Dependency(Plan, FREE_TRIAL)], [Choice(value, value)], value)])];
      } else {
        parameters := parameters[name := Form(v.displayName, "", [])];
      }
    }
    assert src.parameterSpecs[..|src.parameterSpecs|] == src.parameterSpecs;
    parameters := parameters[Plan := PLAN_FORM];
    dst := BetaProvider(src.meta, ALPHA_VERSION, src.common.(credentialFields := fields), parameters, []);
  }

  // ----- v1beta1 to v1alpha1 -----

  function DefaultOf(form: Form): string {
    if |form.conditionalData| > 0 then form.conditionalData[0].defaultValue else ""
  }

  function Back(name: Field, form: Form): ParameterSpec {
    ParameterSpec(name, form.displayName, "string", true, DefaultOf(form))
  }

  /** The specs are those of the kept parameters, visited in this order. */
  ghost predicate VisitedIn(table: Table, provider: Provider, parameters: map<Parameter, Form>,
                            specs: seq<ParameterSpec>, order: seq<Parameter>) {
    && |specs| == |order|
    && (forall x :: x in order <==> x in parameters && x in KEPT)
    && (forall i, j :: 0 <= i < j < |order| ==> order[i] != order[j])
    && (forall i :: 0 <= i < |order| ==>
          && order[i] in parameters
          && IsNameFrom(table, provider, order[i], specs[i].name)
          && specs[i] == Back(specs[i].name, parameters[order[i]]))
  }

  ghost predicate IsFromBeta(table: Table, src: BetaProvider, dst: AlphaProvider) {
    && dst.meta == src.meta
    && dst.common == src.common
    && dst.conditions == []
    && exists order :: VisitedIn(table, src.meta.name, src.parameters, dst.parameterSpecs, order)
  }

  lemma VisitOne(table: Table, provider: Provider, parameters: map<Parameter, Form>, specs: seq<ParameterSpec>,
                 order: seq<Parameter>, k: Parameter, v: Form, name: Field)
    requires VisitedIn(table, provider, parameters, specs, order) && k !in parameters
    ensures k !in KEPT ==> VisitedIn(table, provider, parameters[k := v], specs, order)
    ensures k in KEPT && IsNameFrom(table, provider, k, name) ==>
              VisitedIn(table, provider, parameters[k := v], specs + [Back(name, v)], order + [k])
  {
  }

  method ConvertFrom(table: Table, src: BetaProvider) returns (dst: AlphaProvider)
    ensures IsFromBeta(table, src, dst)
  {
    var fields: seq<CredentialField> := [];
    for i := 0 to |src.common.credentialFields|
      invariant fields == src.common.credentialFields[..i]
    {
      fields := fields + [src.common.credentialFields[i]];
    }
    var specs: seq<ParameterSpec> := [];
    ghost var order: seq<Parameter>, visited: map<Parameter, Form> := [], map[];
    var rest := src.parameters.Keys;
    while rest != {}
      invariant rest <= src.parameters.Keys
      invariant visited == map x | x in src.parameters && x !in rest :: src.parameters[x]
      invariant VisitedIn(table, src.meta.name, visited, specs, order)
      decreases |rest|
    {
      var k :| k in rest;
      rest := rest - {k};
      var v := src.parameters[k];
      if k == CloudProvider || k == Name || k == DatabaseType || k == TeamProject {
        var defaultValue := "";
        if |v.conditionalData| > 0 {
          defaultValue := v.conditionalData[0].defaultValue;
        }
        var name := ConvertNameFrom(table, src.meta.name, k);
        VisitOne(table, src.meta.name, visited, specs, order, k, v, name);
        specs := specs + [ParameterSpec(name, v.displayName, "string", true, defaultValue)];
        order := order + [k];
      } else {
        VisitOne(table, src.meta.name, visited, specs, order, k, v, NO_FIELD);
      }
      visited := visited[k := v];
    }
    assert visited == src.parameters;
    dst := AlphaProvider(src.meta, src.common.(credentialFields := fields), specs, []);
  }

  /** The parameters that v1alpha1 knows. */
  predicate KnownBack(x: Parameter) {
    x == CloudProvider || x == Name || x == DatabaseType || x == TeamProject
  }

  function KnownBackOf(parameters: map<Parameter, Form>): set<Parameter> {
    set x | x in parameters && KnownBack(x)
  }

  /** A required string under a name of the table's, with the default of the first conditional entry. */
  ghost predicate ShowsForm(table: Table, provider: Provider, x: Parameter, form: Form, spec: ParameterSpec) {
    && IsNameFrom(table, provider, x, spec.name)
    && spec.displayName == form.displayName && spec.kind == "string" && spec.required
    && (form.conditionalData == [] ==> spec.defaultValue == "")
    && (form.conditionalData != [] ==> spec.defaultValue == form.conditionalData[0].defaultValue)
  }

  lemma VisitedShows(table: Table, provider: Provider, parameters: map<Parameter, Form>, specs: seq<ParameterSpec>,
                     order: seq<Parameter>, i: nat)
    requires VisitedIn(table, provider, parameters, specs, order) && i < |order|
    ensures order[i] in parameters && KnownBack(order[i])
    ensures ShowsForm(table, provider, order[i], parameters[order[i]], specs[i])
  {
    assert order[i] in order;
  }

  lemma VisitedOrder(table: Table, provider: Provider, parameters: map<Parameter, Form>, specs: seq<ParameterSpec>,
                     order: seq<Parameter>)
    requires VisitedIn(table, provider, parameters, specs, order)
    ensures |specs| == |order|
    ensures forall i, j :: 0 <= i < j < |order| ==> order[i] != order[j]
    ensures (set x | x in order) == KnownBackOf(parameters)
  {
  }

  /** The specs show the known parameters, each once, in this order. */
  ghost predicate BackShows(table: Table, provider: Provider, parameters: map<Parameter, Form>,
                            specs: seq<ParameterSpec>, order: seq<Parameter>)
  {
    && |specs| == |order| == |KnownBackOf(parameters)|
    && (forall x :: x in order <==> x in KnownBackOf(parameters))
    && forall i :: 0 <= i < |order| ==>
                     order[i] in parameters && ShowsForm(table, provider, order[i], parameters[order[i]], specs[i])
  }

  lemma VisitedShowsAll(table: Table, provider: Provider, parameters: map<Parameter, Form>, specs: seq<ParameterSpec>,
                        order: seq<Parameter>)
    requires VisitedIn(table, provider, parameters, specs, order)
    ensures BackShows(table, provider, parameters, specs, order)
  {
    VisitedOrder(table, provider, parameters, specs, order);
    DistinctSize(order);
    assert forall x :: x in order <==> x in set y | y in order;
    forall i | 0 <= i < |order|
      ensures order[i] in parameters && ShowsForm(table, provider, order[i], parameters[order[i]], specs[i])
    {
      VisitedShows(table, provider, parameters, specs, order, i);
    }
  }

  /** What converting back shows; all else is copied. */
  lemma SpokeShows(table: Table, src: BetaProvider, dst: AlphaProvider) returns (order: seq<Parameter>)
    requires IsFromBeta(table, src, dst)
    ensures BackShows(table, src.meta.name, src.parameters, dst.parameterSpecs, order)
    ensures dst.meta == src.meta && dst.common == src.common && dst.conditions == []
  {
    order :| VisitedIn(table, src.meta.name, src.parameters, dst.parameterSpecs, order);
    VisitedShowsAll(table, src.meta.name, src.parameters, dst.parameterSpecs, order);
  }

  lemma {:induction false} DistinctSize<T>(a: seq<T>)
    requires forall i, j :: 0 <= i < j < |a| ==> a[i] != a[j]
    ensures |set x | x in a| == |a|
    decreases |a|
  {
    if a != [] {
      DistinctSize(a[1..]);
      assert (set x | x in a) == {a[0]} + (set x | x in a[1..]);
    }
  }

  // ----- What a rendered parameter remembers -----

  lemma RenderBack(parameter: Parameter, spec: ParameterSpec, name: Field)
    ensures Render(parameter, Back(name, Render(parameter, spec))) == Render(parameter, spec)
  {
  }

  /** Every parameter is the rendering of the last spec that maps to it, and nothing else is there. */
  lemma {:induction false} ParametersAre(table: Table, provider: Provider, specs: seq<ParameterSpec>, x: Parameter)
    ensures x in Parameters(table, provider, specs) <==>
            x != NO_PARAMETER && exists i :: 0 <= i < |specs| && NameTo(table, provider, specs[i].name) == x
    ensures x in Parameters(table, provider, specs) ==>
              exists i :: 0 <= i < |specs| && NameTo(table, provider, specs[i].name) == x
                          && Parameters(table, provider, specs)[x] == Render(x, specs[i])
                          && forall j :: i < j < |specs| ==> NameTo(table, provider, specs[j].name) != x
  {
    if specs != [] {
      var n := |specs| - 1;
      ParametersAre(table, provider, specs[..n], x);
      assert forall i :: 0 <= i < n ==> specs[..n][i] == specs[i];
      if NameTo(table, provider, specs[n].name) == x && x != NO_PARAMETER {
        assert Parameters(table, provider, specs)[x] == Render(x, specs[n]);
      } else if x in Parameters(table, provider, specs) {
        var i :| 0 <= i < n && NameTo(table, provider, specs[..n][i].name) == x
                 && Parameters(table, provider, specs[..n])[x] == Render(x, specs[..n][i])
                 && forall j :: i < j < n ==> NameTo(table, provider, specs[..n][j].name) != x;
        assert NameTo(table, provider, specs[i].name) == x;
        forall j | i < j < |specs| ensures NameTo(table, provider, specs[j].name) != x {
          assert j < n ==> specs[..n][j] == specs[j];
        }
      }
    }
  }

  /** A cloud provider is offered for the free trial alone, with one choice: the default of its spec, or AWS. */
  predicate OffersOneCloud(form: Form, defaultValue: string) {
    var value := if defaultValue == "" then "AWS" else defaultValue;
    && |form.conditionalData| == 1
    && form.conditionalData[0].dependencies == [Dependency(Plan, "FREETRIAL")]
    && form.conditionalData[0].options == [Choice(value, value)]
    && form.conditionalData[0].defaultValue == value
  }

  /** What a form of the v1beta1 provider shows, in terms of the last spec that maps to its parameter. */
  lemma FormShows(table: Table, src: AlphaProvider, x: Parameter) returns (i: nat)
    requires x in ToBeta(table, src).parameters && x != Plan
    ensures i < |src.parameterSpecs| && NameTo(table, src.meta.name, src.parameterSpecs[i].name) == x
    ensures forall j :: i < j < |src.parameterSpecs| ==> NameTo(table, src.meta.name, src.parameterSpecs[j].name) != x
    ensures var form := ToBeta(table, src).parameters[x];
            && form.displayName == src.parameterSpecs[i].displayName && form.helpText == ""
            && if x == CloudProvider then OffersOneCloud(form, src.parameterSpecs[i].defaultValue)
               else form.conditionalData == []
  {
    ParametersAre(table, src.meta.name, src.parameterSpecs, x);
    i :| 0 <= i < |src.parameterSpecs| && NameTo(table, src.meta.name, src.parameterSpecs[i].name) == x
         && Parameters(table, src.meta.name, src.parameterSpecs)[x] == Render(x, src.parameterSpecs[i])
         && forall j :: i < j < |src.parameterSpecs| ==> NameTo(table, src.meta.name, src.parameterSpecs[j].name) != x;
  }

  /** The plan is always the free trial; the rest is copied, marked as of the old version, with an empty status. */
  lemma HubIs(table: Table, src: AlphaProvider)
    ensures var hub := ToBeta(table, src);
            && hub.meta == src.meta && hub.common == src.common && hub.conditions == []
            && hub.groupVersion == "dbaas.redhat.com/v1alpha1"
            && Plan in hub.parameters && hub.parameters[Plan].displayName == "Hosting plan"
            && |hub.parameters[Plan].conditionalData| == 1
            && hub.parameters[Plan].conditionalData[0]
               == Conditional([], [Choice("FREETRIAL", "Free trial")], "FREETRIAL")
  {
  }

  // ----- The normal form -----

  /** Every parameter the table produces for the provider is one that converting back keeps, or the plan, which is
      always rewritten, or empty, which is always skipped. */
  ghost predicate Kept(table: Table, provider: Provider) {
    forall k :: k in FieldsOf(table, provider) ==> FieldsOf(table, provider)[k] in KEPT + {Plan, NO_PARAMETER}
  }

  /** Converting to v1beta1, back and forth again changes nothing more: for any parameters, duplicate, unknown or
      without default, and any order of the map iteration, provided the table only names kept parameters. */
  lemma NormalForm(table: Table, src: AlphaProvider, back: AlphaProvider)
    requires Kept(table, src.meta.name)
    requires IsFromBeta(table, ToBeta(table, src), back)
    ensures ToBeta(table, back) == ToBeta(table, src)
  {
    var hub, again := ToBeta(table, src), ToBeta(table, back);
    var order :| VisitedIn(table, src.meta.name, hub.parameters, back.parameterSpecs, order);
    forall x ensures (x in hub.parameters <==> x in again.parameters)
                     && (x in hub.parameters ==> again.parameters[x] == hub.parameters[x])
    {
      NormalFormAt(table, src, back, order, x);
    }
    SameMap(hub.parameters, again.parameters);
  }

  lemma SameMap<K, V>(m: map<K, V>, n: map<K, V>)
    requires forall x :: (x in m <==> x in n) && (x in m ==> m[x] == n[x])
    ensures m == n
  {
  }

  lemma NormalFormAt(table: Table, src: AlphaProvider, back: AlphaProvider, order: seq<Parameter>, x: Parameter)
    requires Kept(table, src.meta.name) && back.meta == src.meta
    requires VisitedIn(table, src.meta.name, ToBeta(table, src).parameters, back.parameterSpecs, order)
    ensures x in ToBeta(table, src).parameters <==> x in ToBeta(table, back).parameters
    ensures x in ToBeta(table, src).parameters ==> ToBeta(table, back).parameters[x] == ToBeta(table, src).parameters[x]
  {
    var p := src.meta.name;
    var specs := back.parameterSpecs;
    ParametersAre(table, p, src.parameterSpecs, x);
    ParametersAre(table, p, specs, x);
    if x != Plan {
      forall i | 0 <= i < |order| ensures NameTo(table, p, specs[i].name) == order[i] {
        ParametersAre(table, p, src.parameterSpecs, order[i]);
        assert order[i] in order;
        assert order[i] != Plan;
        var j :| 0 <= j < |src.parameterSpecs| && NameTo(table, p, src.parameterSpecs[j].name) == order[i];
      }
      if x in ToBeta(table, src).parameters {
        assert x in KEPT;
        assert x in order;
      }
      if x in Parameters(table, p, specs) {
        var i :| 0 <= i < |specs| && NameTo(table, p, specs[i].name) == x
                 && Parameters(table, p, specs)[x] == Render(x, specs[i]);
        var j :| 0 <= j < |src.parameterSpecs|
                 && Parameters(table, p, src.parameterSpecs)[x] == Render(x, src.parameterSpecs[j]);
        RenderBack(x, src.parameterSpecs[j], specs[i].name);
      }
    }
  }

  /** When the table names any other parameter, some provider loses it on the way back, so the condition is exact. */
  lemma NoNormalForm(table: Table, provider: Provider) returns (src: AlphaProvider)
    requires !Kept(table, provider)
    ensures src.meta.name == provider
    ensures forall back :: IsFromBeta(table, ToBeta(table, src), back) ==> ToBeta(table, back) != ToBeta(table, src)
  {
    var fields := FieldsOf(table, provider);
    var k :| k in fields && fields[k] !in KEPT + {Plan, NO_PARAMETER};
    var x := fields[k];
    var info := ProviderInfo("", "", "", "", "");
    src := AlphaProvider(ObjectMeta(provider, map[]), Common(info, "", "", "", [], false, "", ""),
                         [ParameterSpec(k, "", "string", true, "")], []);
    ParametersAre(table, provider, src.parameterSpecs, x);
    assert NameTo(table, provider, src.parameterSpecs[0].name) == x;
    assert x in ToBeta(table, src).parameters;
    forall back | IsFromBeta(table, ToBeta(table, src), back) ensures x !in ToBeta(table, back).parameters {
      var order :| VisitedIn(table, provider, ToBeta(table, src).parameters, back.parameterSpecs, order);
      ParametersAre(table, provider, src.parameterSpecs, x);
      LostParameter(table, src, back, order, k);
    }
  }

  lemma LostParameter(table: Table, src: AlphaProvider, back: AlphaProvider, order: seq<Parameter>, k: Field)
    requires back.meta == src.meta
    requires k in FieldsOf(table, src.meta.name) && FieldsOf(table, src.meta.name)[k] !in KEPT + {Plan, NO_PARAMETER}
    requires |src.parameterSpecs| == 1 && src.parameterSpecs[0].name == k
    requires VisitedIn(table, src.meta.name, ToBeta(table, src).parameters, back.parameterSpecs, order)
    ensures FieldsOf(table, src.meta.name)[k] !in ToBeta(table, back).parameters
  {
    var x := FieldsOf(table, src.meta.name)[k];
    ParametersAre(table, src.meta.name, back.parameterSpecs, x);
    forall y ensures y !in order {
      ParametersAre(table, src.meta.name, src.parameterSpecs, y);
    }
  }

  // ----- The round trip -----

  /** What a v1alpha1 provider must look like to survive the trip. */
  ghost predicate Faithful(table: Table, provider: Provider, specs: seq<ParameterSpec>) {
    && (forall i, j :: 0 <= i < j < |specs| ==> specs[i].name != specs[j].name)
    && (forall i :: 0 <= i < |specs| ==> Regular(table, provider, specs[i]))
  }

  predicate Regular(table: Table, provider: Provider, spec: ParameterSpec) {
    && NameTo(table, provider, spec.name) != NO_PARAMETER
    && spec.kind == "string" && spec.required
    && (spec.defaultValue != "" <==> NameTo(table, provider, spec.name) == CloudProvider)
  }

  lemma DistinctByMembers<T>(a: seq<T>, b: seq<T>)
    requires forall i, j :: 0 <= i < j < |a| ==> a[i] != a[j]
    requires forall i, j :: 0 <= i < j < |b| ==> b[i] != b[j]
    requires forall x :: x in a <==> x in b
    ensures multiset(a) == multiset(b)
  {
    forall x ensures multiset(a)[x] == multiset(b)[x] {
      DistinctCount(a, x);
      DistinctCount(b, x);
    }
  }

  lemma {:induction false} DistinctCount<T>(a: seq<T>, x: T)
    requires forall i, j :: 0 <= i < j < |a| ==> a[i] != a[j]
    ensures multiset(a)[x] == if x in a then 1 else 0
  {
    if a != [] {
      DistinctCount(a[1..], x);
      assert a == [a[0]] + a[1..];
    }
  }

  /** The table knows each parameter by one name and only knows kept parameters. */
  ghost predicate OneToOne(table: Table, provider: Provider) {
    && Injective(FieldsOf(table, provider))
    && forall k :: k in FieldsOf(table, provider) ==> FieldsOf(table, provider)[k] in KEPT
  }

  lemma FieldsOneToOne(provider: Provider)
    ensures OneToOne(FIELDS, provider) && Kept(FIELDS, provider)
  {
    FieldsInjective(provider);
  }

  lemma VisitedNames(table: Table, src: AlphaProvider, specs: seq<ParameterSpec>, order: seq<Parameter>, i: nat)
    requires OneToOne(table, src.meta.name) && i < |order|
    requires VisitedIn(table, src.meta.name, ToBeta(table, src).parameters, specs, order)
    ensures order[i] in KEPT && NameTo(table, src.meta.name, specs[i].name) == order[i]
    ensures exists j :: 0 <= j < |src.parameterSpecs| && src.parameterSpecs[j].name == specs[i].name
                        && specs[i] == Back(specs[i].name, Render(order[i], src.parameterSpecs[j]))
  {
    assert order[i] in order;
    ParametersAre(table, src.meta.name, src.parameterSpecs, order[i]);
    var j :| 0 <= j < |src.parameterSpecs|
             && NameTo(table, src.meta.name, src.parameterSpecs[j].name) == order[i]
             && Parameters(table, src.meta.name, src.parameterSpecs)[order[i]]
                == Render(order[i], src.parameterSpecs[j]);
  }

  /** Whatever comes back is faithful. */
  lemma BackFaithful(table: Table, src: AlphaProvider, specs: seq<ParameterSpec>, order: seq<Parameter>)
    requires OneToOne(table, src.meta.name)
    requires VisitedIn(table, src.meta.name, ToBeta(table, src).parameters, specs, order)
    ensures Faithful(table, src.meta.name, specs)
  {
    forall i, j | 0 <= i < j < |specs| ensures specs[i].name != specs[j].name {
      VisitedNames(table, src, specs, order, i);
      VisitedNames(table, src, specs, order, j);
    }
    forall i | 0 <= i < |specs| ensures Regular(table, src.meta.name, specs[i]) {
      VisitedNames(table, src, specs, order, i);
    }
  }

  lemma FaithfulComesBack(table: Table, src: AlphaProvider, specs: seq<ParameterSpec>, order: seq<Parameter>,
                          x: ParameterSpec)
    requires OneToOne(table, src.meta.name) && Faithful(table, src.meta.name, src.parameterSpecs)
    requires VisitedIn(table, src.meta.name, ToBeta(table, src).parameters, specs, order)
    ensures x in src.parameterSpecs <==> x in specs
  {
    var a := src.parameterSpecs;
    var p := src.meta.name;
    if x in a {
      var i :| 0 <= i < |a| && a[i] == x;
      var parameter := NameTo(table, p, x.name);
      ParametersAre(table, p, a, parameter);
      assert parameter in order;
      var n :| 0 <= n < |order| && order[n] == parameter;
      VisitedNames(table, src, specs, order, n);
      var j :| 0 <= j < |a| && a[j].name == specs[n].name && specs[n] == Back(specs[n].name, Render(order[n], a[j]));
      assert i == j;
      assert specs[n] == x;
    }
    if x in specs {
      var n :| 0 <= n < |specs| && specs[n] == x;
      VisitedNames(table, src, specs, order, n);
      var j :| 0 <= j < |a| && a[j].name == specs[n].name && specs[n] == Back(specs[n].name, Render(order[n], a[j]));
      assert Regular(table, p, a[j]);
      assert a[j] == x;
    }
  }

  lemma FaithfulTransfers(table: Table, provider: Provider, a: seq<ParameterSpec>, b: seq<ParameterSpec>)
    requires multiset(a) == multiset(b) && Faithful(table, provider, b)
    ensures Faithful(table, provider, a)
  {
    forall i | 0 <= i < |a| ensures a[i] in b {
      assert a[i] in multiset(a);
    }
    forall i, j | 0 <= i < j < |a| ensures a[i].name != a[j].name {
      if a[i] == a[j] {
        assert a == a[..i] + [a[i]] + a[i + 1..j] + [a[j]] + a[j + 1..];
        assert multiset(a)[a[i]] >= 2;
        DistinctCount(b, a[i]);
        assert false;
      }
    }
  }

  /** The v1alpha1 round trip returns the parameter specs as a permutation of the original exactly when the names are
      distinct and known, every spec is a required string, and the cloud provider, alone, has a default. All other spec
      fields come back as they were in any case. */
  lemma RoundTrip(table: Table, src: AlphaProvider, back: AlphaProvider)
    requires OneToOne(table, src.meta.name) && IsFromBeta(table, ToBeta(table, src), back)
    ensures back.meta == src.meta && back.common == src.common
    ensures multiset(back.parameterSpecs) == multiset(src.parameterSpecs)
            <==> Faithful(table, src.meta.name, src.parameterSpecs)
  {
    var a, b := src.parameterSpecs, back.parameterSpecs;
    var order :| VisitedIn(table, src.meta.name, ToBeta(table, src).parameters, b, order);
    BackFaithful(table, src, b, order);
    if Faithful(table, src.meta.name, a) {
      forall x ensures x in a <==> x in b {
        FaithfulComesBack(table, src, b, order, x);
      }
      DistinctByMembers(a, b);
    }
    if multiset(a) == multiset(b) {
      FaithfulTransfers(table, src.meta.name, a, b);
    }
  }
}
