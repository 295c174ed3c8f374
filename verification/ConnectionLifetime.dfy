/** A connection's spec from admission to its resolution against the instance it refers to. */
module ConnectionLifetime {
  import opened Keys
  import opened Wrappers

  datatype ConnectionSpec = ConnectionSpec(
    inventoryRef: Key,
    serviceID: string,
    serviceRef: Option<Key>,
    serviceType: Option<string>)

  datatype Refusal =
    | BothSpecified
    | NeitherSpecified
    | TypeWithRef
    | IdImmutable
    | InventoryImmutable
    | RefImmutable
    | TypeImmutable

  predicate RefNamed(spec: ConnectionSpec) {
    spec.serviceRef.Some? && spec.serviceRef.value.name != ""
  }

  function ValidateCreate(spec: ConnectionSpec): Option<Refusal> {
    if spec.serviceID != "" && RefNamed(spec) then Some(BothSpecified)
    else if spec.serviceID == "" && !RefNamed(spec) then Some(NeitherSpecified)
    else if spec.serviceRef.Some? && spec.serviceType.Some? then Some(TypeWithRef)
    else None
  }

  function ValidateUpdate(spec: ConnectionSpec, before: ConnectionSpec): Option<Refusal> {
    if spec.serviceID != before.serviceID then Some(IdImmutable)
    else if spec.inventoryRef != before.inventoryRef then Some(InventoryImmutable)
    else if spec.serviceRef != before.serviceRef then Some(RefImmutable)
    else if spec.serviceType != before.serviceType then Some(TypeImmutable)
    else None
  }

  // ----- Resolution -----

  datatype InstanceRead = InstanceRead(inventoryRef: Key, instanceID: string)

  datatype ResolveError = NotProperlySet | InstanceUnreadable | OtherInventory | IdNotAvailable | TypeNotSupported

  /** The spec sent to the provider; `instance` is what reading the referenced instance answers. */
  function Resolve(spec: ConnectionSpec, instance: Option<InstanceRead>): Result<ConnectionSpec, ResolveError> {
    if spec.serviceID != "" then Ok(spec)
    else if !RefNamed(spec) then Err(NotProperlySet)
    else if spec.serviceType.Some? then Err(TypeNotSupported)
    else if instance.None? then Err(InstanceUnreadable)
    else if instance.value.inventoryRef != spec.inventoryRef then Err(OtherInventory)
    else if instance.value.instanceID == "" then Err(IdNotAvailable)
    else Ok(spec.(serviceID := instance.value.instanceID, serviceRef := None))
  }

  class SpecCopy {
    var inventoryRef: Key
    var serviceID: string
    var serviceRef: Option<Key>
    var serviceType: Option<string>

    function Value(): ConnectionSpec
      reads this
    {
      ConnectionSpec(inventoryRef, serviceID, serviceRef, serviceType)
    }

    constructor (spec: ConnectionSpec)
      ensures Value() == spec
    {
      inventoryRef, serviceID := spec.inventoryRef, spec.serviceID;
      serviceRef, serviceType := spec.serviceRef, spec.serviceType;
    }

    /** Resolves the copy in place; it changes only on success. */
    method GetConnectionSpec(instance: Option<InstanceRead>) returns (err: Option<ResolveError>)
      modifies this
      ensures err.None? ==> Resolve(old(Value()), instance) == Ok(Value())
      ensures err.Some? ==> Resolve(old(Value()), instance) == Err(err.value) && Value() == old(Value())
    {
      if |serviceID| > 0 {
        return None;
      }
      if serviceRef.None? || |serviceRef.value.name| == 0 {
        return Some(NotProperlySet);
      }
      if serviceType.None? {
        if instance.None? {
          return Some(InstanceUnreadable);
        }
        if instance.value.inventoryRef.ns != inventoryRef.ns || instance.value.inventoryRef.name != inventoryRef.name {
          return Some(OtherInventory);
        }
        if |instance.value.instanceID| == 0 {
          return Some(IdNotAvailable);
        }
        serviceID := instance.value.instanceID;
        serviceRef := None;
      } else {
        return Some(TypeNotSupported);
      }
      return None;
    }
  }

  // ----- What the checks and the resolution say -----

  /** A connection names a service by its ID or by a reference, not both, and a type only with an ID. */
  lemma CreateAdmittedIff(spec: ConnectionSpec)
    ensures var byRef := spec.serviceRef.Some? && |spec.serviceRef.value.name| > 0;
            && (ValidateCreate(spec).None? <==>
                  (spec.serviceID != "" <==> !byRef) && !(spec.serviceRef.Some? && spec.serviceType.Some?))
            && (ValidateCreate(spec) == Some(BothSpecified) <==> spec.serviceID != "" && byRef)
            && (ValidateCreate(spec) == Some(NeitherSpecified) <==> spec.serviceID == "" && !byRef)
            && (ValidateCreate(spec) == Some(TypeWithRef) <==>
                  (spec.serviceID != "" <==> !byRef) && spec.serviceRef.Some? && spec.serviceType.Some?)
  {
  }

  /** An update is admitted exactly when it changes nothing; otherwise the first field that changes is named. */
  lemma UpdateAdmittedIff(spec: ConnectionSpec, before: ConnectionSpec)
    ensures ValidateUpdate(spec, before).None? <==> spec == before
    ensures ValidateUpdate(spec, before) == Some(IdImmutable) <==> spec.serviceID != before.serviceID
    ensures ValidateUpdate(spec, before) == Some(InventoryImmutable) <==>
            spec.serviceID == before.serviceID && spec.inventoryRef != before.inventoryRef
    ensures ValidateUpdate(spec, before) == Some(RefImmutable) <==>
            && spec.serviceID == before.serviceID && spec.inventoryRef == before.inventoryRef
            && spec.serviceRef != before.serviceRef
    ensures ValidateUpdate(spec, before) == Some(TypeImmutable) <==>
            && spec.(serviceType := before.serviceType) == before && spec.serviceType != before.serviceType
  {
  }

  /** A spec with an ID is used as it is; a reference is replaced by the ID of the instance, the rest stays; and each
      error says which demand on the reference or the instance was the first not to be met. */
  lemma ResolveIs(spec: ConnectionSpec, instance: Option<InstanceRead>)
    ensures var r := Resolve(spec, instance);
            var byRef := spec.serviceID == "" && spec.serviceRef.Some? && |spec.serviceRef.value.name| > 0;
            var readable := byRef && spec.serviceType.None? && instance.Some?;
            && (spec.serviceID != "" ==> r == Ok(spec))
            && (r == Err(NotProperlySet) <==> spec.serviceID == "" && !byRef)
            && (r == Err(TypeNotSupported) <==> byRef && spec.serviceType.Some?)
            && (r == Err(InstanceUnreadable) <==> byRef && spec.serviceType.None? && instance.None?)
            && (r == Err(OtherInventory) <==> readable && instance.value.inventoryRef != spec.inventoryRef)
            && (r == Err(IdNotAvailable) <==>
                  readable && instance.value.inventoryRef == spec.inventoryRef && instance.value.instanceID == "")
            && (readable && r.Ok? ==>
                  r.value == ConnectionSpec(spec.inventoryRef, instance.value.instanceID, None, None))
  {
  }

  // ----- Lifetimes -----

  /** The specs a connection had: admitted at creation, and each later one admitted as an update of the one before. */
  ghost predicate Lifetime(specs: seq<ConnectionSpec>) {
    && specs != []
    && ValidateCreate(specs[0]).None?
    && forall i :: 1 <= i < |specs| ==> ValidateUpdate(specs[i], specs[i - 1]).None?
  }

  lemma {:induction false} SpecNeverChanges(specs: seq<ConnectionSpec>, i: nat)
    requires Lifetime(specs) && i < |specs|
    ensures specs[i] == specs[0]
  {
    if i > 0 {
      SpecNeverChanges(specs, i - 1);
    }
  }

  /** At any moment of an admitted lifetime, resolution can only fail for the instance's sake; what it yields names a
      service, keeps the inventory reference and resolves to itself. */
  lemma ResolvesThroughLife(specs: seq<ConnectionSpec>, i: nat, instance: Option<InstanceRead>)
    requires Lifetime(specs) && i < |specs|
    ensures var r := Resolve(specs[i], instance);
            && r != Err(NotProperlySet) && r != Err(TypeNotSupported)
            && (r.Ok? <==> specs[i].serviceID != ""
                           || (instance.Some? && instance.value.inventoryRef == specs[i].inventoryRef
                               && instance.value.instanceID != ""))
            && (r.Ok? ==>
                  && r.value.serviceID != "" && r.value.inventoryRef == specs[i].inventoryRef
                  && forall later :: Resolve(r.value, later) == r)
  {
    SpecNeverChanges(specs, i);
  }

  /** The two unreachable errors are exactly what the two create checks rule out for a spec without a service ID. */
  lemma CreateChecksNeeded(spec: ConnectionSpec, instance: Option<InstanceRead>)
    ensures Resolve(spec, instance) in {Err(NotProperlySet), Err(TypeNotSupported)} <==>
            spec.serviceID == "" && ValidateCreate(spec).Some?
  {
  }
}
