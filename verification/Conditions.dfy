/** Status conditions, without their timestamps and messages. */
module Conditions {
  import opened Wrappers

  datatype Kind =
    | InventoryReady
    | SpecSynced
    | ConnectionReady
    | ReadyForBinding
    | InstanceReady
    | ProvisionReady
    | PlatformReady
    | OtherKind(text: string)

  datatype Status = True | False | Unknown

  datatype Reason =
    | ReadyReason
    | PolicyNotFound
    | ProviderNotFound
    | InventoryNotFound
    | InventoryNotReady
    | InventoryNotProvisionable
    | InvalidNamespace
    | ServiceNotAvailable
    | ProviderReconcileInprogress
    | ProviderReconcileError
    | ProviderParsingError
    | InstallationInprogress
    | OtherReason(text: string)

  datatype Condition = Condition(kind: Kind, status: Status, reason: Reason)

  function Find(conditions: seq<Condition>, kind: Kind): (found: Option<Condition>)
    ensures found.Some? ==> found.value in conditions && found.value.kind == kind
    ensures found.None? <==> forall i :: 0 <= i < |conditions| ==> conditions[i].kind != kind
  {
    if conditions == [] then None
    else if conditions[0].kind == kind then Some(conditions[0])
    else
      var rest := Find(conditions[1..], kind);
      assert forall i :: 1 <= i < |conditions| ==> conditions[i] == conditions[1..][i - 1];
      rest
  }

  /** The first condition of the kind is overwritten; a missing one is appended. */
  function Set(conditions: seq<Condition>, condition: Condition): seq<Condition> {
    if conditions == [] then [condition]
    else if conditions[0].kind == condition.kind then [condition] + conditions[1..]
    else [conditions[0]] + Set(conditions[1..], condition)
  }

  ghost predicate Unique(conditions: seq<Condition>) {
    forall i, j :: 0 <= i < j < |conditions| ==> conditions[i].kind != conditions[j].kind
  }

  predicate IsTrue(conditions: seq<Condition>, kind: Kind) {
    var found := Find(conditions, kind);
    found.Some? && found.value.status == True
  }

  /** Where the first condition of the kind stands, or the length. */
  ghost function FirstAt(conditions: seq<Condition>, kind: Kind): (at: nat)
    ensures at <= |conditions|
    ensures at < |conditions| ==> conditions[at].kind == kind
    ensures forall i :: 0 <= i < at ==> conditions[i].kind != kind
  {
    if conditions == [] || conditions[0].kind == kind then 0 else 1 + FirstAt(conditions[1..], kind)
  }

  lemma {:induction false} SetAt(conditions: seq<Condition>, condition: Condition)
    ensures var at := FirstAt(conditions, condition.kind);
            Set(conditions, condition)
            == if at < |conditions| then conditions[at := condition] else conditions + [condition]
    decreases |conditions|
  {
    if conditions != [] && conditions[0].kind != condition.kind {
      SetAt(conditions[1..], condition);
    }
  }

  lemma {:induction false} SetFinds(conditions: seq<Condition>, condition: Condition, kind: Kind)
    ensures Find(Set(conditions, condition), kind)
            == if kind == condition.kind then Some(condition) else Find(conditions, kind)
  {
    if conditions != [] && conditions[0].kind != condition.kind {
      SetFinds(conditions[1..], condition, kind);
      assert Set(conditions, condition)[1..] == Set(conditions[1..], condition);
    } else if conditions != [] {
      assert Set(conditions, condition)[1..] == conditions[1..];
    }
  }

  lemma SetTwice(conditions: seq<Condition>, condition: Condition)
    ensures Set(Set(conditions, condition), condition) == Set(conditions, condition)
  {
    SetAt(conditions, condition);
    SetAt(Set(conditions, condition), condition);
    SameFirst(conditions, Set(conditions, condition), condition.kind);
  }

  /** Two lists whose first condition of the kind stands at the same place. */
  lemma SameFirst(a: seq<Condition>, b: seq<Condition>, kind: Kind)
    requires |a| <= |b| && FirstAt(a, kind) < |b| && b[FirstAt(a, kind)].kind == kind
    requires forall i :: 0 <= i < FirstAt(a, kind) ==> b[i].kind == a[i].kind
    ensures FirstAt(b, kind) == FirstAt(a, kind)
  {
  }

  lemma SetKeepsUnique(conditions: seq<Condition>, condition: Condition)
    requires Unique(conditions)
    ensures Unique(Set(conditions, condition))
  {
    SetAt(conditions, condition);
  }
}
