/** The table that renames provisioning parameters between the two API versions, and its two lookups. */
module ProviderFields {

  // The strings the code compares are constructors; every other string is Other...(text).

  /** A provider's registration name. */
  datatype Provider =
    | Crunchy // crunchy-bridge-registration
    | Mongo   // mongodb-atlas-registration
    | Rds     // rds-registration
    | OtherProvider(text: string)

  /** A v1beta1 provisioning parameter. */
  datatype Parameter =
    | Name          // name
    | CloudProvider // cloudProvider
    | Regions       // regions
    | Plan          // plan
    | TeamProject   // teamProject
    | DatabaseType  // databaseType
    | OtherParameter(text: string)

  /** A v1alpha1 parameter name. */
  datatype Field =
    | NameField         // Name
    | ProviderField     // Provider
    | ClusterNameField  // clusterName
    | ProviderNameField // providerName
    | ProjectNameField  // ProjectName
    | LowerProjectField // projectName
    | EngineField       // Engine
    | OtherField(text: string)

  /** What a provider asks of the credentials of an inventory. */
  datatype CredentialField =
    CredentialField(key: string, displayName: string, kind: string, required: bool, helpText: string)

  const NO_PARAMETER := OtherParameter("")
  const NO_FIELD := OtherField("")

  const FREE_TRIAL := "FREETRIAL"

  type Fields = map<Field, Parameter>
  type Table = map<Provider, Fields>

  const FIELDS: Table := map[
    Crunchy := map[NameField := Name, ProviderField := CloudProvider],
    Mongo := map[ClusterNameField := Name, ProviderNameField := CloudProvider, ProjectNameField := TeamProject],
    Rds := map[EngineField := DatabaseType]
  ]

  function FieldsOf(table: Table, provider: Provider): Fields {
    if provider in table then table[provider] else map[]
  }

  /** The v1beta1 name of a v1alpha1 parameter, empty when it has none. */
  function NameTo(table: Table, provider: Provider, name: Field): Parameter {
    var fields := FieldsOf(table, provider);
    if name in fields then fields[name] else NO_PARAMETER
  }

  /** A possible answer of the reverse lookup, which stops at the first match of a map iteration in arbitrary order. */
  ghost predicate IsNameFrom(table: Table, provider: Provider, parameter: Parameter, name: Field) {
    var fields := FieldsOf(table, provider);
    || (name in fields && fields[name] == parameter)
    || (name == NO_FIELD && forall k :: k in fields ==> fields[k] != parameter)
  }

  method ConvertNameTo(table: Table, provider: Provider, name: Field) returns (parameter: Parameter)
    ensures parameter == NameTo(table, provider, name)
  {
    if provider in table {
      if name in table[provider] {
        return table[provider][name];
      }
    }
    return NO_PARAMETER;
  }

  method ConvertNameFrom(table: Table, provider: Provider, parameter: Parameter) returns (name: Field)
    ensures IsNameFrom(table, provider, parameter, name)
  {
    if provider in table {
      var rest := table[provider].Keys;
      while rest != {}
        invariant rest <= table[provider].Keys
        invariant forall k :: k in table[provider] && k !in rest ==> table[provider][k] != parameter
        decreases |rest|
      {
        var k :| k in rest;
        if table[provider][k] == parameter {
          return k;
        }
        rest := rest - {k};
      }
    }
    return NO_FIELD;
  }

  ghost predicate Injective(fields: Fields) {
    forall k1, k2 :: k1 in fields && k2 in fields && fields[k1] == fields[k2] ==> k1 == k2
  }

  /** With one name for each parameter the reverse lookup is a function, whatever the iteration order. */
  lemma NameFromUnique(table: Table, provider: Provider, parameter: Parameter, name1: Field, name2: Field)
    requires Injective(FieldsOf(table, provider))
    requires IsNameFrom(table, provider, parameter, name1) && IsNameFrom(table, provider, parameter, name2)
    ensures name1 == name2
  {
  }

  lemma FieldsInjective(provider: Provider)
    ensures Injective(FieldsOf(FIELDS, provider))
  {
  }
}
