/** Who owns the memory behind an inventory's status. Slices, maps and pointers are references here: converting an old
    provider's status shares them, the generated deep copy replaces them, and Ready is then set in place. */
module StatusAliasing {
  import opened Wrappers
  import opened Conditions
  import opened InventoryConversion
  import opened ProviderResource
  import opened Slices

  // ----- Maps and pointers -----

  class InfoMap {
    var entries: map<string, string>

    constructor ()
      ensures entries == map[]
    {
      entries := map[];
    }
  }

  class TypeCell {
    var text: string

    constructor (text: string)
      ensures this.text == text
    {
      this.text := text;
    }
  }

  datatype HeapInstance = HeapInstance(id: string, name: string, info: InfoMap?)

  datatype HeapService = HeapService(id: string, name: string, kind: TypeCell?, info: InfoMap?)

  /** What a service says, without the memory it says it in. */
  ghost function Value(service: HeapService): Service
    reads service.kind, service.info
  {
    Service(service.id, service.name,
            if service.kind == null then None else Some(service.kind.text),
            if service.info == null then None else Some(service.info.entries))
  }

  ghost function InstanceValue(instance: HeapInstance): Instance
    reads instance.info
  {
    Instance(instance.id, instance.name, if instance.info == null then None else Some(instance.info.entries))
  }

  method CopyMap(source: InfoMap) returns (copied: InfoMap)
    ensures fresh(copied) && copied.entries == source.entries
  {
    copied := new InfoMap();
    var left := source.entries.Keys;
    while left != {}
      invariant left <= source.entries.Keys
      invariant fresh(copied) && copied.entries == source.entries - left
      decreases |left|
    {
      var key :| key in left;
      copied.entries := copied.entries[key := source.entries[key]];
      left := left - {key};
    }
  }

  /** Overwrites one element with a copy that has a map and a type of its own. */
  method DeepCopyService(service: HeapService, out: array<HeapService>, i: nat)
    requires i < out.Length
    modifies out
    ensures out[..] == old(out[..])[i := out[i]]
    ensures Value(out[i]) == Value(service)
    ensures out[i].kind != null ==> fresh(out[i].kind)
    ensures out[i].info != null ==> fresh(out[i].info)
  {
    var copy := service;
    if service.kind != null {
      var kind := new TypeCell(service.kind.text);
      copy := copy.(kind := kind);
    }
    if service.info != null {
      var info := CopyMap(service.info);
      copy := copy.(info := info);
    }
    out[i] := copy;
  }

  /** The maps and types behind a list of services. */
  ghost function Cells(services: seq<HeapService>): (cells: set<object>)
    ensures forall cell <- cells :: cell is InfoMap || cell is TypeCell
  {
    (set s | s in services && s.info != null :: s.info as object)
    + (set s | s in services && s.kind != null :: s.kind as object)
  }

  ghost function Values(services: seq<HeapService>): seq<Service>
    reads Cells(services)
  {
    seq(|services|, i requires 0 <= i < |services| reads Cells(services) => Value(services[i]))
  }

  // ----- The two versions of the status -----

  class BetaStatusObject {
    var conditions: Slice<Condition>
    var services: Slice<HeapService>

    constructor ()
      ensures conditions == Slice(null, 0) && services == Slice(null, 0)
    {
      conditions, services := Slice(null, 0), Slice(null, 0);
    }

    predicate Valid()
      reads this
    {
      conditions.Valid() && services.Valid()
    }

    /** Everything behind `out` is its own afterwards: new arrays without spare room, and for every service a map and a
        type of its own. */
    method DeepCopyInto(out: BetaStatusObject)
      requires Valid() && out != this
      modifies out
      ensures out.Valid()
      ensures out.conditions.Contents() == conditions.Contents()
      ensures (conditions.data == null) == (out.conditions.data == null)
      ensures out.conditions.data != null ==>
                fresh(out.conditions.data) && out.conditions.data.Length == out.conditions.length
      ensures (services.data == null) == (out.services.data == null)
      ensures out.services.data != null ==> fresh(out.services.data)
      ensures Values(out.services.Contents()) == Values(services.Contents())
      ensures Owned(out.services.Contents()) && fresh(Cells(out.services.Contents()))
    {
      out.conditions, out.services := conditions, services;
      if conditions.data != null {
        var n := conditions.length;
        var copied := new Condition[n](_ => SyncPending(InventoryObject));
        forall i | 0 <= i < n {
          copied[i] := conditions.data[i];
        }
        out.conditions := Slice(copied, n);
      }
      if services.data != null {
        var copied := CopyServices(services);
        out.services := Slice(copied, services.length);
      }
    }
  }

  /** No two services share a map or a type. */
  ghost predicate Owned(services: seq<HeapService>) {
    forall i, j :: 0 <= i < j < |services| ==>
                     && (services[i].info == null || services[i].info != services[j].info)
                     && (services[i].kind == null || services[i].kind != services[j].kind)
  }

  lemma OwnedExtends(services: seq<HeapService>, service: HeapService)
    requires Owned(services)
    requires forall s <- services :: s.info == null || s.info != service.info
    requires forall s <- services :: s.kind == null || s.kind != service.kind
    ensures Owned(services + [service])
  {
  }

  method CopyServices(services: Slice<HeapService>) returns (copied: array<HeapService>)
    requires services.Valid() && services.data != null
    ensures fresh(copied) && copied.Length == services.length
    ensures forall i :: 0 <= i < services.length ==> Value(copied[i]) == Value(services.data[i])
    ensures Owned(copied[..])
    ensures forall i :: 0 <= i < services.length && copied[i].info != null ==> fresh(copied[i].info)
    ensures forall i :: 0 <= i < services.length && copied[i].kind != null ==> fresh(copied[i].kind)
  {
    ghost var given := services.Contents();
    copied := new HeapService[services.length](_ => HeapService("", "", null, null));
    for i := 0 to services.length
      invariant fresh(copied) && copied.Length == services.length
      invariant forall j :: 0 <= j < i ==> Value(copied[j]) == Value(given[j])
      invariant Owned(copied[..i])
      invariant forall j :: 0 <= j < i && copied[j].info != null ==> fresh(copied[j].info)
      invariant forall j :: 0 <= j < i && copied[j].kind != null ==> fresh(copied[j].kind)
    {
      ghost var before := copied[..];
      DeepCopyService(services.data[i], copied, i);
      assert copied[..i] == before[..i];
      OwnedExtends(copied[..i], copied[i]);
      assert copied[..i + 1] == copied[..i] + [copied[i]];
    }
    assert copied[..] == copied[..services.length];
  }

  class AlphaStatusObject {
    var conditions: Slice<Condition>
    var instances: Slice<HeapInstance>

    constructor (conditions: Slice<Condition>, instances: Slice<HeapInstance>)
      ensures this.conditions == conditions && this.instances == instances
    {
      this.conditions, this.instances := conditions, instances;
    }

    predicate Valid()
      reads this
    {
      conditions.Valid() && instances.Valid()
    }

    /** Shares the condition slice and every info map with this status; only the list of services is new. */
    method ConvertTo(dst: BetaStatusObject)
      requires Valid()
      modifies dst
      ensures dst.conditions == conditions
      ensures if instances.data == null then dst.services == old(dst.services) else dst.services.Valid()
      ensures instances.data != null ==>
                && (instances.length == 0 <==> dst.services.data == null)
                && (dst.services.data != null ==> fresh(dst.services.data))
                && dst.services.Contents() == AllListed(instances.Contents())
    {
      dst.conditions := conditions;
      if instances.data != null {
        var services: Slice<HeapService> := Slice(null, 0);
        for i := 0 to instances.length
          invariant services.Valid() && services.length == i
          invariant dst.conditions == conditions
          invariant i == 0 <==> services.data == null
          invariant services.data != null ==> fresh(services.data)
          invariant services.Contents() == AllListed(instances.data[..i])
        {
          services := Append(services, Listed(instances.data[i]));
        }
        dst.services := services;
      }
    }
  }

  /** A database service for an instance: the map itself, not a copy. */
  function Listed(instance: HeapInstance): HeapService {
    HeapService(instance.id, instance.name, null, instance.info)
  }

  function AllListed(instances: seq<HeapInstance>): seq<HeapService> {
    seq(|instances|, i requires 0 <= i < |instances| => Listed(instances[i]))
  }

  ghost function InstanceValues(instances: seq<HeapInstance>): seq<Instance>
    reads Cells(AllListed(instances))
  {
    seq(|instances|, i requires 0 <= i < |instances| reads Cells(AllListed(instances)) =>
      (assert AllListed(instances)[i] in AllListed(instances); InstanceValue(instances[i])))
  }

  /** A status as a value; a nil list is None. */
  ghost function AlphaValue(conditions: Slice<Condition>, instances: Slice<HeapInstance>): AlphaStatus
    requires conditions.Valid() && instances.Valid()
    reads conditions.data, instances.data, Cells(AllListed(instances.Contents()))
  {
    AlphaStatus(conditions.Contents(),
                if instances.data == null then None else Some(InstanceValues(instances.Contents())))
  }

  ghost function BetaValue(conditions: Slice<Condition>, services: Slice<HeapService>): BetaStatus
    requires conditions.Valid() && services.Valid()
    reads conditions.data, services.data, Cells(services.Contents())
  {
    BetaStatus(conditions.Contents(), if services.data == null then None else Some(Values(services.Contents())))
  }

  /** What ConvertTo leaves in a new status, read as a value, is the conversion of the source read as a value. */
  lemma ConvertedAgrees(conditions: Slice<Condition>, instances: Slice<HeapInstance>, services: Slice<HeapService>)
    requires conditions.Valid() && instances.Valid() && services.Valid()
    requires instances.data == null || instances.length == 0 <==> services.data == null
    requires services.Contents() == AllListed(instances.Contents())
    ensures BetaValue(conditions, services) == ToBetaStatus(AlphaValue(conditions, instances))
  {
    var listed := instances.Contents();
    forall i | 0 <= i < |listed| ensures Values(AllListed(listed))[i] == ToServices(InstanceValues(listed))[i] {
    }
    assert Values(AllListed(listed)) == ToServices(InstanceValues(listed));
  }

  // ----- The merge -----

  function VerdictOf(provided: seq<Condition>): Condition {
    Verdict(InventoryObject, ObjectStatus(provided, NoPhase, ""))
  }

  /** Sets the first condition of the kind where it lies, or appends. */
  method SetStatusCondition(status: BetaStatusObject, condition: Condition)
    requires status.Valid()
    modifies status`conditions, status.conditions.data
    ensures status.Valid() && status.conditions.Contents() == Set(old(status.conditions.Contents()), condition)
    ensures status.conditions.data == old(status.conditions.data) || fresh(status.conditions.data)
    ensures status.services.Contents() == old(status.services.Contents())
  {
    ghost var before := status.conditions.Contents();
    for i := 0 to status.conditions.length
      invariant status.conditions.Contents() == before
      invariant forall j :: 0 <= j < i ==> before[j].kind != condition.kind
    {
      if status.conditions.data[i].kind == condition.kind {
        status.conditions.data[i] := condition;
        SetAt(before, condition);
        return;
      }
    }
    SetAt(before, condition);
    status.conditions := Append(status.conditions, condition);
  }

  method MergeInventoryStatus(inventory: BetaStatusObject, provider: BetaStatusObject) returns (condition: Condition)
    requires provider.Valid() && inventory != provider
    modifies inventory
    ensures inventory.Valid() && condition == VerdictOf(provider.conditions.Contents())
    ensures inventory.conditions.Contents() == provider.conditions.Contents()
    ensures inventory.conditions.data != null ==> fresh(inventory.conditions.data)
    ensures inventory.services.data != null ==> fresh(inventory.services.data)
    ensures Values(inventory.services.Contents()) == Values(provider.services.Contents())
    ensures Owned(inventory.services.Contents()) && fresh(Cells(inventory.services.Contents()))
  {
    provider.DeepCopyInto(inventory);
    condition := if IsTrue(provider.conditions.Contents(), SpecSynced)
    then SyncDone(InventoryObject) else SyncPending(InventoryObject);
  }

  /** The merge and the deferred condition: only the inventory's own two fields change among everything that existed
      before, although the condition is set in place, and nothing the inventory reaches afterwards existed before. */
  method TakeOver(inventory: BetaStatusObject, provider: BetaStatusObject)
    requires provider.Valid() && inventory != provider
    modifies inventory
    ensures inventory.Valid()
    ensures inventory.conditions.Contents()
            == Set(old(provider.conditions.Contents()), VerdictOf(old(provider.conditions.Contents())))
    ensures provider.conditions.Contents() == old(provider.conditions.Contents())
    ensures fresh(inventory.conditions.data)
    ensures inventory.services.data != null ==> fresh(inventory.services.data)
    ensures Values(inventory.services.Contents()) == Values(provider.services.Contents())
    ensures Owned(inventory.services.Contents()) && fresh(Cells(inventory.services.Contents()))
  {
    var condition := MergeInventoryStatus(inventory, provider);
    ghost var services, provided := inventory.services.Contents(), provider.services.Contents();
    ghost var values := Values(services);
    SetStatusCondition(inventory, condition);
    assert Values(services) == values && Values(provided) == values;
    SetAt(provider.conditions.Contents(), condition);
  }

  /** The same for a provider of the old version, although the conversion in between shares the provider's memory. */
  method TakeOverAlpha(inventory: BetaStatusObject, provider: AlphaStatusObject)
    requires provider.Valid()
    modifies inventory
    ensures inventory.Valid()
    ensures inventory.conditions.Contents()
            == Set(old(provider.conditions.Contents()), VerdictOf(old(provider.conditions.Contents())))
    ensures provider.conditions.Contents() == old(provider.conditions.Contents())
    ensures provider.instances.Contents() == old(provider.instances.Contents())
    ensures unchanged(Cells(AllListed(provider.instances.Contents())))
    ensures fresh(inventory.conditions.data)
    ensures inventory.services.data != null ==> fresh(inventory.services.data)
    ensures Values(inventory.services.Contents()) == Values(AllListed(provider.instances.Contents()))
    ensures Owned(inventory.services.Contents()) && fresh(Cells(inventory.services.Contents()))
  {
    var converted := new BetaStatusObject();
    provider.ConvertTo(converted);
    TakeOver(inventory, converted);
  }
}
