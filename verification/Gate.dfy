/** The gate in front of the provider: the checks the connection, instance and inventory reconcilers make before they
    touch a provider object or report an object as ready. Each answer of the API server is arbitrary, so whatever may
    change between two reads of a pass is covered. */
module Gate {
  import opened Wrappers
  import opened Access
  import opened Conditions
  import opened ConnectionLifetime
  import opened ProviderResource

  datatype InventoryRead = InventoryRead(home: string, policy: Option<AccessPolicy>, conditions: seq<Condition>)

  datatype PolicyRead = PolicyRead(ready: bool, policy: AccessPolicy)

  datatype GateAnswers = GateAnswers(
    fetch: Option<ApiError>,
    topology: Option<ApiError>,
    inventory: Result<InventoryRead, ApiError>,
    policies: Result<seq<PolicyRead>, ApiError>,
    cluster: Cluster,
    gateWrite: Option<ApiError>,
    service: Option<InstanceRead>,
    credentials: Option<ApiError>,
    provider: Option<ApiError>,
    conversion: Option<ApiError>,
    pass: Answers)

  /** What the pass is about: its namespace and, for a connection, its spec. */
  datatype Request = Request(namespace: string, spec: ConnectionSpec)

  function ActivePolicy(policies: seq<PolicyRead>): Option<AccessPolicy> {
    if policies == [] then None
    else if policies[0].ready then Some(policies[0].policy)
    else ActivePolicy(policies[1..])
  }

  // ----- checkInventory -----

  datatype Check =
    | Open
    | Refused(reason: Reason)
    | Broken

  function CheckOf(kind: ObjectKind, request: Request, g: GateAnswers): Check {
    if g.inventory.Err? then
      if g.inventory.error.NotFound? then Refused(InventoryNotFound) else Broken
    else if g.policies.Err? then Broken
    else
      var inventory := g.inventory.value;
      var active := ActivePolicy(g.policies.value);
      var valid := Decision(request.namespace, inventory.home, Governing(inventory.policy, active), g.cluster);
      var ready := Find(inventory.conditions, InventoryReady);
      if valid.Err? then Broken
      else if !valid.value then Refused(InvalidNamespace)
      else if ready.None? || ready.value.status == False then Refused(InventoryNotReady)
      else if kind == InstanceObject && !CanProvision(inventory.policy, active) then Refused(InventoryNotProvisionable)
      else Open
  }

  /** The status the error callback leaves: not ready for the reason and, for an instance, in the error phase. */
  function Denied(kind: ObjectKind, status: ObjectStatus, reason: Reason): ObjectStatus {
    var s := WithReady(status, NotReady(kind, reason));
    if kind == InstanceObject then s.(phase := ErrorPhase) else s
  }

  method FindActivePolicy(policies: seq<PolicyRead>) returns (active: Option<AccessPolicy>)
    ensures active == ActivePolicy(policies)
  {
    for i := 0 to |policies|
      invariant ActivePolicy(policies) == ActivePolicy(policies[i..])
    {
      assert policies[i..][1..] == policies[i + 1..];
      if policies[i].ready {
        return Some(policies[i].policy);
      }
    }
    return None;
  }

  method Deny(subject: Subject, reason: Reason, error: Option<ApiError>)
    modifies subject
    ensures subject.status == Denied(subject.kind, old(subject.status), reason)
    ensures subject.calls == old(subject.calls) + [UpdateStatus(subject.status, error)]
  {
    subject.status := WithReady(subject.status, NotReady(subject.kind, reason));
    if subject.kind == InstanceObject {
      subject.status := subject.status.(phase := ErrorPhase);
    }
    subject.calls := subject.calls + [UpdateStatus(subject.status, error)];
  }

  method CheckInventory(subject: Subject, request: Request, g: GateAnswers)
    returns (validNS: bool, provision: bool, failed: bool)
    modifies subject
    ensures var check := CheckOf(subject.kind, request, g);
            && (check.Open? <==> validNS && !failed)
            && (check.Refused? && check.reason == InvalidNamespace ==> !validNS && !failed)
            && (check.Open? && subject.kind == InstanceObject ==> provision)
            && (!check.Refused? ==> subject.status == old(subject.status) && subject.calls == old(subject.calls))
            && (check.Refused? ==>
                  && subject.status == Denied(subject.kind, old(subject.status), check.reason)
                  && subject.calls == old(subject.calls) + [UpdateStatus(subject.status, g.gateWrite)])
  {
    validNS, provision, failed := false, false, false;
    if g.inventory.Err? {
      if g.inventory.error.NotFound? {
        Deny(subject, InventoryNotFound, g.gateWrite);
      }
      return false, false, true;
    }
    if g.policies.Err? {
      return false, false, true;
    }
    var inventory := g.inventory.value;
    var active := FindActivePolicy(g.policies.value);
    provision := CanProvisionBranches(inventory.policy, active);
    var valid := IsValidConnectionNS(request.namespace, inventory.home, inventory.policy, active, g.cluster);
    if valid.Err? {
      return false, provision, true;
    }
    validNS := valid.value;
    if validNS {
      var ready := Find(inventory.conditions, InventoryReady);
      if ready.None? || ready.value.status == False {
        Deny(subject, InventoryNotReady, g.gateWrite);
        failed := true;
      } else if !provision && subject.kind == InstanceObject {
        Deny(subject, InventoryNotProvisionable, g.gateWrite);
        failed := true;
      }
    } else {
      Deny(subject, InvalidNamespace, g.gateWrite);
    }
  }

  // ----- The reconcilers -----

  /** A pass ends with these calls and this status. */
  datatype Outcome = Outcome(calls: seq<Call>, status: ObjectStatus)

  function Quietly(status: ObjectStatus): Outcome {
    Outcome([], status)
  }

  function Saying(status: ObjectStatus, error: Option<ApiError>): Outcome {
    Outcome([UpdateStatus(status, error)], status)
  }

  function Providing(kind: ObjectKind, status: ObjectStatus, g: GateAnswers): Outcome {
    Outcome(Calls(kind, status, g.pass), FinalStatus(kind, status, g.pass))
  }

  function ConnectionPass(status: ObjectStatus, request: Request, g: GateAnswers): Outcome {
    if g.fetch.Some? || g.topology.Some? then Quietly(status)
    else
      match CheckOf(ConnectionObject, request, g)
      case Broken => Quietly(status)
      case Refused(reason) => Saying(Denied(ConnectionObject, status, reason), g.gateWrite)
      case Open =>
        if Resolve(request.spec, g.service).Err? then
          Saying(WithReady(status, NotReady(ConnectionObject, ServiceNotAvailable)), g.gateWrite)
        else if g.provider.Some? then Quietly(status)
        else Providing(ConnectionObject, status, g)
  }

  function InstancePass(status: ObjectStatus, request: Request, g: GateAnswers): Outcome {
    if g.fetch.Some? then Quietly(status)
    else
      match CheckOf(InstanceObject, request, g)
      case Broken => Quietly(status)
      case Refused(reason) => Saying(Denied(InstanceObject, status, reason), g.gateWrite)
      case Open =>
        if g.provider.Some? || g.conversion.Some? then Quietly(status)
        else Providing(InstanceObject, status, g)
  }

  function InventoryPass(status: ObjectStatus, g: GateAnswers): Outcome {
    if g.fetch.Some? || g.policies.Err? then Quietly(status)
    else if ActivePolicy(g.policies.value).None? then
      Saying(WithReady(status, NotReady(InventoryObject, PolicyNotFound)), g.gateWrite)
    else if g.credentials.Some? || g.provider.Some? then Quietly(status)
    else Providing(InventoryObject, status, g)
  }

  function PassOf(kind: ObjectKind, status: ObjectStatus, request: Request, g: GateAnswers): Outcome {
    match kind
    case InventoryObject => InventoryPass(status, g)
    case ConnectionObject => ConnectionPass(status, request, g)
    case InstanceObject => InstancePass(status, request, g)
  }

  method ReconcileConnection(subject: Subject, request: Request, g: GateAnswers)
    requires subject.kind == ConnectionObject && subject.calls == []
    modifies subject
    ensures Outcome(subject.calls, subject.status) == ConnectionPass(old(subject.status), request, g)
  {
    if g.fetch.Some? {
      return;
    }
    if g.topology.Some? {
      return;
    }
    var validNS, _, failed := CheckInventory(subject, request, g);
    if failed {
      return;
    } else if !validNS {
      return;
    }
    var spec := new SpecCopy(request.spec);
    var err := spec.GetConnectionSpec(g.service);
    if err.Some? {
      subject.status := WithReady(subject.status, NotReady(ConnectionObject, ServiceNotAvailable));
      subject.calls := subject.calls + [UpdateStatus(subject.status, g.gateWrite)];
      return;
    }
    if g.provider.Some? {
      return;
    }
    var _, _ := subject.ReconcileProviderResource(g.pass);
  }

  method ReconcileInstance(subject: Subject, request: Request, g: GateAnswers)
    requires subject.kind == InstanceObject && subject.calls == []
    modifies subject
    ensures Outcome(subject.calls, subject.status) == InstancePass(old(subject.status), request, g)
  {
    if g.fetch.Some? {
      return;
    }
    var validNS, provision, failed := CheckInventory(subject, request, g);
    if failed {
      return;
    } else if !validNS {
      return;
    } else if !provision {
      assert false; // checkInventory has already failed such an instance
      return;
    }
    if g.provider.Some? {
      return;
    }
    if g.conversion.Some? {
      return;
    }
    var _, _ := subject.ReconcileProviderResource(g.pass);
  }

  method ReconcileInventory(subject: Subject, g: GateAnswers)
    requires subject.kind == InventoryObject && subject.calls == []
    modifies subject
    ensures Outcome(subject.calls, subject.status) == InventoryPass(old(subject.status), g)
  {
    if g.fetch.Some? {
      return;
    }
    if g.policies.Err? {
      return;
    }
    var active := FindActivePolicy(g.policies.value);
    if active.None? {
      subject.status := WithReady(subject.status, NotReady(InventoryObject, PolicyNotFound));
      subject.calls := subject.calls + [UpdateStatus(subject.status, g.gateWrite)];
      return;
    }
    if g.credentials.Some? {
      return;
    }
    if g.provider.Some? {
      return;
    }
    var _, _ := subject.ReconcileProviderResource(g.pass);
  }

  // ----- What the gate guarantees in one pass -----

  /** An active policy in the namespace of the inventory. */
  predicate PolicyActive(g: GateAnswers) {
    g.policies.Ok? && exists i :: 0 <= i < |g.policies.value| && g.policies.value[i].ready
  }

  /** The policy found is the first ready one of the list. */
  lemma {:induction false} ActivePolicyIs(policies: seq<PolicyRead>, i: nat)
    requires i < |policies| && policies[i].ready && forall j :: 0 <= j < i ==> !policies[j].ready
    ensures ActivePolicy(policies) == Some(policies[i].policy)
    decreases i
  {
    if i > 0 {
      ActivePolicyIs(policies[1..], i - 1);
    }
  }

  lemma {:induction false} ActivePolicyExists(policies: seq<PolicyRead>)
    ensures ActivePolicy(policies).Some? <==> exists i :: 0 <= i < |policies| && policies[i].ready
  {
    if policies != [] && !policies[0].ready {
      ActivePolicyExists(policies[1..]);
      assert forall i :: 1 <= i < |policies| ==> policies[i] == policies[1..][i - 1];
    }
  }

  /** The inventory was found, is not known to be unready, and admits the namespace. */
  predicate InventoryAdmits(request: Request, g: GateAnswers) {
    && g.inventory.Ok? && g.policies.Ok?
    && Decision(request.namespace, g.inventory.value.home,
                Governing(g.inventory.value.policy, ActivePolicy(g.policies.value)), g.cluster) == Ok(true)
    && Find(g.inventory.value.conditions, InventoryReady).Some?
    && Find(g.inventory.value.conditions, InventoryReady).value.status != False
  }

  /** Whether the namespace is admitted, refused, or not decided for an error, with the policies read. */
  ghost predicate Admission(request: Request, g: GateAnswers, answer: Result<bool, AccessError>)
    requires g.inventory.Ok? && g.policies.Ok?
  {
    RightAnswer(request.namespace, g.inventory.value.home, g.inventory.value.policy, ActivePolicy(g.policies.value),
                g.cluster, answer)
  }

  ghost predicate InventoryUnready(g: GateAnswers)
    requires g.inventory.Ok?
  {
    var ready := Find(g.inventory.value.conditions, InventoryReady);
    ready.None? || ready.value.status == False
  }

  /** Each outcome of the check comes for exactly its reason. */
  lemma CheckIs(kind: ObjectKind, request: Request, g: GateAnswers)
    ensures var check := CheckOf(kind, request, g);
            var readable := g.inventory.Ok? && g.policies.Ok?;
            var admitted := readable && Admission(request, g, Ok(true));
            var ready := admitted && !InventoryUnready(g);
            var forbidden := ready && kind == InstanceObject
                             && !NothingForbids(g.inventory.value.policy, ActivePolicy(g.policies.value));
            && (check == Refused(InventoryNotFound) <==> g.inventory.Err? && g.inventory.error.NotFound?)
            && (check == Refused(InvalidNamespace) <==> readable && Admission(request, g, Ok(false)))
            && (check == Refused(InventoryNotReady) <==> admitted && InventoryUnready(g))
            && (check == Refused(InventoryNotProvisionable) <==> forbidden)
            && (check == Open <==> ready && !forbidden)
            && (check == Broken <==>
                  || (g.inventory.Err? && !g.inventory.error.NotFound?)
                  || (g.inventory.Ok? && g.policies.Err?)
                  || (readable && !Admission(request, g, Ok(true)) && !Admission(request, g, Ok(false))))
  {
    if g.inventory.Ok? && g.policies.Ok? {
      var policy, active := g.inventory.value.policy, ActivePolicy(g.policies.value);
      var answer := Decision(request.namespace, g.inventory.value.home, Governing(policy, active), g.cluster);
      DecisionIsRight(request.namespace, g.inventory.value.home, policy, active, g.cluster);
      forall b: Result<bool, AccessError> | Admission(request, g, b) ensures b == answer {
        RightAnswerUnique(request.namespace, g.inventory.value.home, policy, active, g.cluster, answer, b);
      }
      assert answer.Ok? ==> answer.value == (answer == Ok(true));
      ProvisionIff(policy, active);
    }
  }

  /** A refusal shows as the reason of the Ready condition and, for an instance, in its phase; nothing else changes. */
  lemma DeniedShows(kind: ObjectKind, status: ObjectStatus, reason: Reason, other: Kind)
    requires other != ReadyKind(kind)
    ensures var denied := Denied(kind, status, reason);
            && Find(denied.conditions, ReadyKind(kind)) == Some(Condition(ReadyKind(kind), False, reason))
            && Find(denied.conditions, other) == Find(status.conditions, other)
            && denied.phase == (if kind == InstanceObject then ErrorPhase else status.phase)
            && denied.data == status.data
  {
    SetFinds(status.conditions, NotReady(kind, reason), ReadyKind(kind));
    SetFinds(status.conditions, NotReady(kind, reason), other);
  }

  /** The pass makes no call and leaves the status. */
  predicate IsQuiet(outcome: Outcome, status: ObjectStatus) {
    outcome.calls == [] && outcome.status == status
  }

  /** The pass makes one call, a status write, and says that the object is not ready for this reason. */
  ghost predicate SaysOnly(outcome: Outcome, ready: Kind, reason: Reason, error: Option<ApiError>) {
    && outcome.calls == [UpdateStatus(outcome.status, error)]
    && Find(outcome.status.conditions, ready) == Some(Condition(ready, False, reason))
  }

  /** What each exit of the connection and instance reconcilers before the provider leaves. */
  lemma ExitsSay(kind: ObjectKind, status: ObjectStatus, request: Request, g: GateAnswers)
    requires kind != InventoryObject
    ensures var outcome := PassOf(kind, status, request, g);
            var check := CheckOf(kind, request, g);
            var entered := g.fetch.None? && (kind == ConnectionObject ==> g.topology.None?);
            var unresolved := kind == ConnectionObject && Resolve(request.spec, g.service).Err?;
            && (!entered ==> IsQuiet(outcome, status))
            && (entered && check.Broken? ==> IsQuiet(outcome, status))
            && (entered && check.Refused? ==> SaysOnly(outcome, ReadyKind(kind), check.reason, g.gateWrite))
            && (entered && check.Open? && unresolved ==>
                  SaysOnly(outcome, ReadyKind(kind), ServiceNotAvailable, g.gateWrite))
            && (entered && check.Open? && !unresolved && g.provider.Some? ==> IsQuiet(outcome, status))
            && (entered && check.Open? && kind == InstanceObject && g.conversion.Some? ==> IsQuiet(outcome, status))
  {
    forall reason
      ensures Find(WithReady(status, NotReady(kind, reason)).conditions, ReadyKind(kind))
              == Some(NotReady(kind, reason))
    {
      SetFinds(status.conditions, NotReady(kind, reason), ReadyKind(kind));
    }
  }

  /** And of the inventory reconciler. */
  lemma InventoryExitsSay(status: ObjectStatus, request: Request, g: GateAnswers)
    ensures var outcome := PassOf(InventoryObject, status, request, g);
            && (g.fetch.Some? || g.policies.Err? ==> IsQuiet(outcome, status))
            && (g.fetch.None? && g.policies.Ok? && !PolicyActive(g) ==>
                  SaysOnly(outcome, InventoryReady, PolicyNotFound, g.gateWrite))
            && (g.fetch.None? && PolicyActive(g) && (g.credentials.Some? || g.provider.Some?) ==>
                  IsQuiet(outcome, status))
  {
    if g.policies.Ok? {
      ActivePolicyExists(g.policies.value);
    }
    SetFinds(status.conditions, NotReady(InventoryObject, PolicyNotFound), InventoryReady);
  }

  predicate GateOpen(kind: ObjectKind, request: Request, g: GateAnswers) {
    && g.fetch.None? && g.provider.None?
    && match kind
       case InventoryObject => PolicyActive(g) && g.credentials.None?
       case ConnectionObject => g.topology.None? && InventoryAdmits(request, g) && Resolve(request.spec, g.service).Ok?
       case InstanceObject =>
         && InventoryAdmits(request, g) && PolicyActive(g) && g.conversion.None?
         && CanProvision(g.inventory.value.policy, ActivePolicy(g.policies.value))
  }

  predicate TouchesProvider(calls: seq<Call>) {
    exists i :: 0 <= i < |calls| && calls[i].CreateOrUpdate?
  }

  /** A pass goes through to the provider exactly when the gate is open; otherwise it never says Ready. */
  lemma GateDecides(kind: ObjectKind, status: ObjectStatus, request: Request, g: GateAnswers)
    ensures GateOpen(kind, request, g) ==> PassOf(kind, status, request, g) == Providing(kind, status, g)
    ensures !GateOpen(kind, request, g) ==>
              var outcome := PassOf(kind, status, request, g);
              || outcome == Quietly(status)
              || (!IsTrue(outcome.status.conditions, ReadyKind(kind)) && outcome == Saying(outcome.status, g.gateWrite))
  {
    if g.policies.Ok? {
      ActivePolicyExists(g.policies.value);
    }
    if !GateOpen(kind, request, g) {
      forall reason ensures !IsTrue(WithReady(status, NotReady(kind, reason)).conditions, ReadyKind(kind)) {
        WithReadyShows(status, NotReady(kind, reason));
      }
    }
  }

  /** No pass stores a Ready condition that is Unknown. */
  lemma PassReadyKnown(kind: ObjectKind, status: ObjectStatus, request: Request, g: GateAnswers)
    requires ReadyKnown(kind, status)
    ensures ReadyKnown(kind, PassOf(kind, status, request, g).status)
  {
    FinalReadyKnown(kind, status, g.pass);
    forall reason ensures ReadyKnown(kind, WithReady(status, NotReady(kind, reason))) {
      WithReadyKnown(kind, status, NotReady(kind, reason));
    }
  }

  /** The provider object is written exactly when the gate is open and the provider is still there, and Ready is only
      ever written in a pass whose gate was open. */
  lemma ProviderBehindGate(kind: ObjectKind, status: ObjectStatus, request: Request, g: GateAnswers)
    ensures var calls := PassOf(kind, status, request, g).calls;
            && (TouchesProvider(calls) <==> GateOpen(kind, request, g) && g.pass.provider.None?)
            && forall i :: 0 <= i < |calls| && calls[i].UpdateStatus?
                           && IsTrue(calls[i].status.conditions, ReadyKind(kind)) ==>
                             GateOpen(kind, request, g)
  {
    GateDecides(kind, status, request, g);
    if GateOpen(kind, request, g) && g.pass.provider.None? {
      assert PassOf(kind, status, request, g).calls[0].CreateOrUpdate?;
    }
  }
}
