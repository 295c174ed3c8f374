/** Conversion of a DBaaSInstance spec between v1alpha1 and v1beta1, with the renames of the parameter table and the
    special cases for MongoDB Atlas and Crunchy Bridge. */
module InstanceConversion {
  import opened Keys
  import opened Wrappers
  import opened ProviderFields

  datatype AlphaSpec = AlphaSpec(
    inventoryRef: Key,
    name: string,
    cloudProvider: string,
    cloudRegion: string,
    other: map<Field, string>)

  datatype BetaSpec = BetaSpec(inventoryRef: Key, parameters: map<Parameter, string>)

  /** The answer of the webhook client for the inventory: its provider name, or why there is none. */
  datatype LookupError = ClientNotSet | GetFailed(message: string)
  type Lookup = Result<Provider, LookupError>

  function Get<K>(m: map<K, string>, k: K, default: string): string {
    if k in m then m[k] else default
  }

  /** m with the entry of `from` under `field`, if any, copied under `to`. */
  function Put<K, L>(m: map<L, string>, to: L, from: map<K, string>, field: K): map<L, string> {
    if field in from then m[to := from[field]] else m
  }

  // ----- The lookups for the operator's own table -----

  function ParameterOf(provider: Provider, field: Field): Parameter {
    match (provider, field)
    case (Crunchy, NameField) => Name
    case (Crunchy, ProviderField) => CloudProvider
    case (Mongo, ClusterNameField) => Name
    case (Mongo, ProviderNameField) => CloudProvider
    case (Mongo, ProjectNameField) => TeamProject
    case (Rds, EngineField) => DatabaseType
    case _ => NO_PARAMETER
  }

  function FieldOf(provider: Provider, parameter: Parameter): Field {
    match (provider, parameter)
    case (Crunchy, Name) => NameField
    case (Crunchy, CloudProvider) => ProviderField
    case (Mongo, Name) => ClusterNameField
    case (Mongo, CloudProvider) => ProviderNameField
    case (Mongo, TeamProject) => ProjectNameField
    case (Rds, DatabaseType) => EngineField
    case _ => NO_FIELD
  }

  lemma ParameterOfIs(provider: Provider, field: Field)
    ensures NameTo(FIELDS, provider, field) == ParameterOf(provider, field)
  {
  }

  lemma FieldOfIs(provider: Provider, parameter: Parameter, field: Field)
    requires IsNameFrom(FIELDS, provider, parameter, field)
    ensures field == FieldOf(provider, parameter)
  {
    FieldsInjective(provider);
    NameFromUnique(FIELDS, provider, parameter, field, FieldOf(provider, parameter));
  }

  method OwnNameTo(provider: Provider, field: Field) returns (parameter: Parameter)
    ensures parameter == ParameterOf(provider, field)
  {
    parameter := ConvertNameTo(FIELDS, provider, field);
    ParameterOfIs(provider, field);
  }

  method OwnNameFrom(provider: Provider, parameter: Parameter) returns (field: Field)
    ensures field == FieldOf(provider, parameter)
  {
    field := ConvertNameFrom(FIELDS, provider, parameter);
    FieldOfIs(provider, parameter, field);
  }

  // ----- v1alpha1 to v1beta1 -----

  function OwnFields(src: AlphaSpec): map<Parameter, string> {
    map[Name := src.name, CloudProvider := src.cloudProvider, Regions := src.cloudRegion]
  }

  /** The renamed other parameters are written over the spec's own fields. */
  function Renamed(provider: Provider, own: map<Parameter, string>, other: map<Field, string>): map<Parameter, string> {
    match provider
    case Crunchy => Put(Put(own, Name, other, NameField), CloudProvider, other, ProviderField)
    case Mongo =>
      Put(Put(Put(own, Name, other, ClusterNameField), CloudProvider, other, ProviderNameField),
          TeamProject, other, ProjectNameField)
    case Rds => Put(own, DatabaseType, other, EngineField)
    case OtherProvider(_) => own
  }

  function ToBeta(provider: Provider, src: AlphaSpec): BetaSpec {
    BetaSpec(src.inventoryRef, Renamed(provider, OwnFields(src), src.other)[Plan := FREE_TRIAL])
  }

  class BetaInstanceSpec {
    var inventoryRef: Key
    var parameters: map<Parameter, string>

    function Value(): BetaSpec
      reads this
    {
      BetaSpec(inventoryRef, parameters)
    }

    constructor ()
      ensures Value() == BetaSpec(Key("", ""), map[])
    {
      inventoryRef, parameters := Key("", ""), map[];
    }
  }

  lemma RenameOne(provider: Provider, own: map<Parameter, string>, other: map<Field, string>, key: Field, val: string)
    requires key !in other
    ensures var x := ParameterOf(provider, key);
            Renamed(provider, own, other[key := val])
            == if x == NO_PARAMETER then Renamed(provider, own, other) else Renamed(provider, own, other)[x := val]
  {
  }

  /** One round of the loop of ConvertTo. */
  method FillParameter(provider: Provider, key: Field, val: string, dst: BetaInstanceSpec,
                       ghost own: map<Parameter, string>, ghost visited: map<Field, string>)
    requires key !in visited && dst.parameters == Renamed(provider, own, visited)
    modifies dst`parameters
    ensures dst.parameters == Renamed(provider, own, visited[key := val])
  {
    RenameOne(provider, own, visited, key, val);
    var name := OwnNameTo(provider, key);
    if name == NO_PARAMETER {
      return;
    }
    dst.parameters := dst.parameters[name := val];
  }

  /** The loop of ConvertTo over the other parameters, in any order. */
  method FillParameters(src: AlphaSpec, provider: Provider, dst: BetaInstanceSpec)
    modifies dst`parameters
    ensures dst.parameters == Renamed(provider, old(dst.parameters), src.other)
  {
    ghost var own := dst.parameters;
    var rest := src.other.Keys;
    ghost var visited: map<Field, string> := map[];
    while rest != {}
      invariant rest <= src.other.Keys
      invariant visited == src.other - rest
      invariant dst.parameters == Renamed(provider, own, visited)
      decreases |rest|
    {
      var key :| key in rest;
      FillParameter(provider, key, src.other[key], dst, own, visited);
      rest := rest - {key};
      visited := visited[key := src.other[key]];
    }
    assert visited == src.other;
  }

  /** Fills dst; on an error dst holds the reference and the spec's own fields only. */
  method ConvertTo(src: AlphaSpec, lookup: Lookup, dst: BetaInstanceSpec) returns (err: Option<LookupError>)
    modifies dst
    ensures lookup.Ok? ==> err.None? && dst.Value() == ToBeta(lookup.value, src)
    ensures lookup.Err? ==> err == Some(lookup.error) && dst.Value() == BetaSpec(src.inventoryRef, OwnFields(src))
  {
    dst.inventoryRef := src.inventoryRef;
    dst.parameters := map[];
    dst.parameters := dst.parameters[Name := src.name];
    dst.parameters := dst.parameters[CloudProvider := src.cloudProvider];
    dst.parameters := dst.parameters[Regions := src.cloudRegion];
    if lookup.Err? {
      return Some(lookup.error);
    }
    FillParameters(src, lookup.value, dst);
    dst.parameters := dst.parameters[Plan := FREE_TRIAL];
    return None;
  }

  // ----- v1beta1 to v1alpha1 -----

  /** The parameters that v1alpha1 keeps under other names; Mongo's project name changes its first letter. */
  function Others(provider: Provider, parameters: map<Parameter, string>): map<Field, string> {
    match provider
    case Crunchy => Put(Put(map[], NameField, parameters, Name), ProviderField, parameters, CloudProvider)
    case Mongo =>
      Put(Put(Put(map[], ClusterNameField, parameters, Name), ProviderNameField, parameters, CloudProvider),
          LowerProjectField, parameters, TeamProject)
    case Rds => Put(map[], EngineField, parameters, DatabaseType)
    case OtherProvider(_) => map[]
  }

  function FromBeta(provider: Provider, src: BetaSpec): AlphaSpec {
    AlphaSpec(src.inventoryRef,
              Get(src.parameters, Name, ""),
              Get(src.parameters, CloudProvider, ""),
              if provider == Crunchy then "us-east-1" else Get(src.parameters, Regions, ""),
              Others(provider, src.parameters))
  }

  class AlphaInstanceSpec {
    var inventoryRef: Key
    var name: string
    var cloudProvider: string
    var cloudRegion: string
    var other: map<Field, string>

    function Value(): AlphaSpec
      reads this
    {
      AlphaSpec(inventoryRef, name, cloudProvider, cloudRegion, other)
    }

    constructor ()
      ensures Value() == AlphaSpec(Key("", ""), "", "", "", map[])
    {
      inventoryRef, name, cloudProvider, cloudRegion, other := Key("", ""), "", "", "", map[];
    }
  }

  lemma MoveOne(provider: Provider, parameters: map<Parameter, string>, key: Parameter, val: string)
    requires key !in parameters
    ensures var field := FieldOf(provider, key);
            var name := if field == ProjectNameField then LowerProjectField else field;
            Others(provider, parameters[key := val])
            == if field == NO_FIELD then Others(provider, parameters) else Others(provider, parameters)[name := val]
  {
  }

  /** The loop of ConvertFrom over the parameters, in any order. */
  method FillOthers(src: BetaSpec, provider: Provider, dst: AlphaInstanceSpec)
    requires dst.other == map[]
    modifies dst`other
    ensures dst.other == Others(provider, src.parameters)
  {
    var rest := src.parameters.Keys;
    ghost var visited: map<Parameter, string> := map[];
    while rest != {}
      invariant rest <= src.parameters.Keys
      invariant visited == src.parameters - rest
      invariant dst.other == Others(provider, visited)
      decreases |rest|
    {
      var key :| key in rest;
      var name := OwnNameFrom(provider, key);
      MoveOne(provider, visited, key, src.parameters[key]);
      rest := rest - {key};
      visited := visited[key := src.parameters[key]];
      if name == NO_FIELD {
        continue;
      }
      if name == ProjectNameField {
        name := LowerProjectField;
      }
      dst.other := dst.other[name := src.parameters[key]];
    }
    assert visited == src.parameters;
  }

  /** Fills dst; on an error dst holds the own fields, the reference and no other parameters. */
  method ConvertFrom(src: BetaSpec, lookup: Lookup, dst: AlphaInstanceSpec) returns (err: Option<LookupError>)
    modifies dst
    ensures lookup.Ok? ==> err.None? && dst.Value() == FromBeta(lookup.value, src)
    ensures lookup.Err? ==>
              && err == Some(lookup.error)
              && dst.Value() == AlphaSpec(src.inventoryRef, Get(src.parameters, Name, ""),
                                          Get(src.parameters, CloudProvider, ""),
                                          Get(src.parameters, Regions, ""), map[])
  {
    dst.name := Get(src.parameters, Name, "");
    dst.cloudProvider := Get(src.parameters, CloudProvider, "");
    dst.cloudRegion := Get(src.parameters, Regions, "");
    dst.inventoryRef := src.inventoryRef;
    dst.other := map[];
    if lookup.Err? {
      return Some(lookup.error);
    }
    FillOthers(src, lookup.value, dst);
    if lookup.value == Crunchy {
      dst.cloudRegion := "us-east-1";
    }
    return None;
  }

  // ----- What the two conversions say, from the table alone -----

  /** A parameter of the v1beta1 spec is the last word of whichever other parameter the table renames to it; without one
      it is the spec's own field, and nothing else is there but the plan. */
  lemma HubParameterIs(provider: Provider, src: AlphaSpec, x: Parameter)
    requires x != Plan
    ensures var hub := ToBeta(provider, src).parameters;
            && (forall f :: f in src.other && NameTo(FIELDS, provider, f) == x && x != NO_PARAMETER ==>
                              x in hub && hub[x] == src.other[f])
            && ((forall f :: f in src.other && NameTo(FIELDS, provider, f) == x ==> x == NO_PARAMETER) ==>
                  && (x in hub <==> x in {Name, CloudProvider, Regions})
                  && (x == Name ==> hub[x] == src.name)
                  && (x == CloudProvider ==> hub[x] == src.cloudProvider)
                  && (x == Regions ==> hub[x] == src.cloudRegion))
  {
    forall f ensures NameTo(FIELDS, provider, f) == ParameterOf(provider, f) {
      ParameterOfIs(provider, f);
    }
    match provider
    case Crunchy => RenamedIs(provider, OwnFields(src), src.other, x);
    case Mongo => RenamedIs(provider, OwnFields(src), src.other, x);
    case Rds => RenamedIs(provider, OwnFields(src), src.other, x);
    case OtherProvider(_) =>
  }

  lemma RenamedIs(provider: Provider, own: map<Parameter, string>, other: map<Field, string>, x: Parameter)
    requires x != NO_PARAMETER || x !in own
    ensures var hub := Renamed(provider, own, other);
            && (forall f :: f in other && ParameterOf(provider, f) == x && x != NO_PARAMETER ==>
                              x in hub && hub[x] == other[f])
            && ((forall f :: f in other && ParameterOf(provider, f) == x ==> x == NO_PARAMETER) ==>
                  (x in hub <==> x in own) && (x in own ==> hub[x] == own[x]))
  {
  }

  lemma HubPlan(provider: Provider, src: AlphaSpec)
    ensures var hub := ToBeta(provider, src);
            hub.inventoryRef == src.inventoryRef && Plan in hub.parameters && hub.parameters[Plan] == FREE_TRIAL
  {
  }

  function SpokeName(name: Field): Field {
    if name == ProjectNameField then LowerProjectField else name
  }

  /** Each parameter that the table knows goes to the other parameters of the v1alpha1 spec under the table's name for
      it, spelled in lower case for the project name. */
  lemma SpokeHas(provider: Provider, src: BetaSpec, x: Parameter, name: Field)
    requires x in src.parameters && IsNameFrom(FIELDS, provider, x, name) && name != NO_FIELD
    ensures var other := FromBeta(provider, src).other;
            SpokeName(name) in other && other[SpokeName(name)] == src.parameters[x]
  {
    FieldOfIs(provider, x, name);
  }

  /** And nothing else goes there. */
  lemma SpokeHasOnly(provider: Provider, src: BetaSpec, field: Field) returns (x: Parameter, name: Field)
    requires field in FromBeta(provider, src).other
    ensures x in src.parameters && IsNameFrom(FIELDS, provider, x, name) && SpokeName(name) == field
    ensures FromBeta(provider, src).other[field] == src.parameters[x]
  {
    name := if field == LowerProjectField then ProjectNameField else field;
    x := ParameterOf(provider, name);
    ParameterOfIs(provider, name);
  }

  lemma SpokeFields(provider: Provider, src: BetaSpec)
    ensures var spoke := FromBeta(provider, src);
            && spoke.inventoryRef == src.inventoryRef
            && (Name in src.parameters ==> spoke.name == src.parameters[Name])
            && (CloudProvider in src.parameters ==> spoke.cloudProvider == src.parameters[CloudProvider])
            && (provider == Crunchy ==> spoke.cloudRegion == "us-east-1")
            && (provider != Crunchy && Regions in src.parameters ==> spoke.cloudRegion == src.parameters[Regions])
            && (Name !in src.parameters ==> spoke.name == "")
            && (CloudProvider !in src.parameters ==> spoke.cloudProvider == "")
            && (provider != Crunchy && Regions !in src.parameters ==> spoke.cloudRegion == "")
  {
  }

  // ----- Round trips -----

  /** v1beta1 to v1alpha1 and back. */
  function M(provider: Provider, b: BetaSpec): BetaSpec {
    ToBeta(provider, FromBeta(provider, b))
  }

  /** v1alpha1 to v1beta1 and back. */
  function N(provider: Provider, a: AlphaSpec): AlphaSpec {
    FromBeta(provider, ToBeta(provider, a))
  }

  /** Exactly what the v1beta1 round trip loses: all keys but name, cloud provider, regions, plan and the RDS database
      type; the plan becomes the free trial, the Crunchy region becomes us-east-1, and absent fields become empty. */
  lemma ExactLoss(provider: Provider, b: BetaSpec)
    ensures M(provider, b).inventoryRef == b.inventoryRef
    ensures M(provider, b).parameters.Keys
            == {Name, CloudProvider, Regions, Plan}
               + if provider == Rds && DatabaseType in b.parameters then {DatabaseType} else {}
    ensures forall x :: x in M(provider, b).parameters ==>
                          M(provider, b).parameters[x]
                          == if x == Plan then FREE_TRIAL
                             else if x == Regions && provider == Crunchy then "us-east-1"
                             else Get(b.parameters, x, "")
  {
  }

  lemma MIdempotent(provider: Provider, b: BetaSpec)
    ensures M(provider, M(provider, b)) == M(provider, b)
  {
    var c := M(provider, b);
    ExactLoss(provider, b);
    ExactLoss(provider, c);
    assert M(provider, c).parameters.Keys == c.parameters.Keys;
    assert M(provider, c).parameters == c.parameters;
  }

  /** A Mongo project name is the one thing whose second trip differs from the first: it is renamed to a key that the
      table does not know, and is lost the next time. */
  predicate CarriesProject(provider: Provider, a: AlphaSpec) {
    provider == Mongo && ProjectNameField in a.other
  }

  lemma NIdempotentIff(provider: Provider, a: AlphaSpec)
    ensures N(provider, N(provider, a)) == N(provider, a) <==> !CarriesProject(provider, a)
  {
    if CarriesProject(provider, a) {
      ProjectIsLost(a);
    } else {
      SecondTripKeeps(provider, a);
    }
  }

  lemma ProjectIsLost(a: AlphaSpec)
    requires ProjectNameField in a.other
    ensures LowerProjectField in N(Mongo, a).other && LowerProjectField !in N(Mongo, N(Mongo, a)).other
  {
  }

  lemma MongoKeeps(a: AlphaSpec)
    requires ProjectNameField !in a.other
    ensures N(Mongo, N(Mongo, a)) == N(Mongo, a)
  {
    assert N(Mongo, N(Mongo, a)).other == N(Mongo, a).other;
  }

  lemma SecondTripKeeps(provider: Provider, a: AlphaSpec)
    requires !CarriesProject(provider, a)
    ensures N(provider, N(provider, a)) == N(provider, a)
  {
    match provider
    case Crunchy =>
    case Mongo => MongoKeeps(a);
    case Rds => assert N(Rds, N(Rds, a)).other == N(Rds, a).other;
    case OtherProvider(_) =>
  }

  lemma NStabilises(provider: Provider, a: AlphaSpec)
    ensures N(provider, N(provider, N(provider, a))) == N(provider, N(provider, a))
  {
    assert !CarriesProject(provider, N(provider, a));
    NIdempotentIff(provider, N(provider, a));
  }
}
