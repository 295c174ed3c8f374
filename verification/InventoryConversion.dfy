/** Conversion of a DBaaSInventory between v1alpha1, whose policy fields stand in the spec itself, and v1beta1, which
    holds them in an optional policy object. */
module InventoryConversion {
  import opened Keys
  import opened Wrappers
  import opened Access
  import opened Conditions

  datatype AlphaInventorySpec = AlphaInventorySpec(
    providerRef: Key,
    credentialsRef: Option<string>,
    connectionNamespaces: Option<seq<string>>,
    connectionNsSelector: Option<Selector>,
    disableProvisions: Option<bool>)

  datatype BetaInventorySpec = BetaInventorySpec(
    providerRef: Key,
    credentialsRef: Option<string>,
    policy: Option<AccessPolicy>)

  const NO_FIELDS := AccessPolicy(None, None, None)

  function ToBetaSpec(src: AlphaInventorySpec): BetaInventorySpec {
    var policy := AccessPolicy(src.disableProvisions, src.connectionNamespaces, src.connectionNsSelector);
    BetaInventorySpec(src.providerRef, src.credentialsRef, if policy == NO_FIELDS then None else Some(policy))
  }

  /** What converting makes of the policy dst already holds: each field that is set replaces the one there. */
  function Overlay(policy: Option<AccessPolicy>, src: AlphaInventorySpec): Option<AccessPolicy> {
    var base := if policy.Some? then policy.value else NO_FIELDS;
    if ToBetaSpec(src).policy.None? then policy
    else Some(AccessPolicy(if src.disableProvisions.Some? then src.disableProvisions else base.disableProvisions,
                           if src.connectionNamespaces.Some? then src.connectionNamespaces else base.namespaces,
                           if src.connectionNsSelector.Some? then src.connectionNsSelector else base.nsSelector))
  }

  function FromBetaSpec(src: BetaInventorySpec): AlphaInventorySpec {
    var policy := if src.policy.Some? then src.policy.value else NO_FIELDS;
    AlphaInventorySpec(src.providerRef, src.credentialsRef,
                       policy.namespaces, policy.nsSelector, policy.disableProvisions)
  }

  // ----- Statuses -----

  // A nil list, map or pointer is None.

  datatype Service = Service(id: string, name: string, kind: Option<string>, info: Option<map<string, string>>)
  datatype Instance = Instance(id: string, name: string, info: Option<map<string, string>>)

  datatype AlphaStatus = AlphaStatus(conditions: seq<Condition>, instances: Option<seq<Instance>>)
  datatype BetaStatus = BetaStatus(conditions: seq<Condition>, services: Option<seq<Service>>)

  function ToService(instance: Instance): Service {
    Service(instance.id, instance.name, None, instance.info)
  }

  function ToServices(instances: seq<Instance>): seq<Service> {
    seq(|instances|, i requires 0 <= i < |instances| => ToService(instances[i]))
  }

  /** Appending nothing to a nil list leaves it nil. */
  function ToBetaStatus(src: AlphaStatus): BetaStatus {
    BetaStatus(src.conditions,
               if src.instances.None? || src.instances.value == [] then None else Some(ToServices(src.instances.value)))
  }

  class BetaInventory {
    var providerRef: Key
    var credentialsRef: Option<string>
    var policy: Option<AccessPolicy>
    var conditions: seq<Condition>
    var services: Option<seq<Service>>

    function Spec(): BetaInventorySpec
      reads this
    {
      BetaInventorySpec(providerRef, credentialsRef, policy)
    }

    function Status(): BetaStatus
      reads this
    {
      BetaStatus(conditions, services)
    }

    constructor ()
      ensures Spec() == BetaInventorySpec(Key("", ""), None, None) && Status() == BetaStatus([], None)
    {
      providerRef, credentialsRef, policy, conditions, services := Key("", ""), None, None, [], None;
    }

    method SetPolicyObj()
      modifies this`policy
      ensures policy == if old(policy).None? then Some(NO_FIELDS) else old(policy)
    {
      if policy.None? {
        policy := Some(NO_FIELDS);
      }
    }

    /** Conversion usually fills a new object; in any other, unset fields and nil lists leave dst as it was. */
    method ConvertTo(spec: AlphaInventorySpec, status: AlphaStatus)
      modifies this
      ensures providerRef == spec.providerRef && credentialsRef == spec.credentialsRef
      ensures policy == Overlay(old(policy), spec)
      ensures old(policy).None? ==>
                (policy.None? <==> spec.connectionNamespaces.None? && spec.connectionNsSelector.None?
                                   && spec.disableProvisions.None?)
      ensures policy.Some? ==>
                var before := if old(policy).Some? then old(policy).value else AccessPolicy(None, None, None);
                && policy.value.namespaces
                   == (if spec.connectionNamespaces.Some? then spec.connectionNamespaces else before.namespaces)
                && policy.value.nsSelector
                   == (if spec.connectionNsSelector.Some? then spec.connectionNsSelector else before.nsSelector)
                && policy.value.disableProvisions
                   == (if spec.disableProvisions.Some? then spec.disableProvisions else before.disableProvisions)
      ensures old(policy).Some? ==> policy.Some?
      ensures old(policy).None? ==> Spec() == ToBetaSpec(spec)
      ensures Status()
              == if status.instances.Some? then ToBetaStatus(status) else BetaStatus(status.conditions, old(services))
    {
      credentialsRef := spec.credentialsRef;
      if spec.connectionNamespaces.Some? {
        SetPolicyObj();
        policy := Some(policy.value.(namespaces := spec.connectionNamespaces));
      }
      if spec.connectionNsSelector.Some? {
        SetPolicyObj();
        policy := Some(policy.value.(nsSelector := spec.connectionNsSelector));
      }
      if spec.disableProvisions.Some? {
        SetPolicyObj();
        policy := Some(policy.value.(disableProvisions := spec.disableProvisions));
      }
      providerRef := spec.providerRef;
      ConvertStatusTo(status);
    }

    method ConvertStatusTo(status: AlphaStatus)
      modifies this`conditions, this`services
      ensures Status()
              == if status.instances.Some? then ToBetaStatus(status) else BetaStatus(status.conditions, old(services))
    {
      conditions := status.conditions;
      if status.instances.Some? {
        var converted: Option<seq<Service>> := None;
        for i := 0 to |status.instances.value|
          invariant i == 0 ==> converted.None?
          invariant i > 0 ==>
                      && converted.Some? && |converted.value| == i
                      && forall j :: 0 <= j < i ==> converted.value[j] == ToService(status.instances.value[j])
        {
          var instance := status.instances.value[i];
          var before := if converted.Some? then converted.value else [];
          converted := Some(before + [Service(instance.id, instance.name, None, instance.info)]);
        }
        assert status.instances.value != [] ==> converted.value == ToBetaStatus(status).services.value;
        services := converted;
      }
    }
  }

  class AlphaInventory {
    var providerRef: Key
    var credentialsRef: Option<string>
    var connectionNamespaces: Option<seq<string>>
    var connectionNsSelector: Option<Selector>
    var disableProvisions: Option<bool>

    function Spec(): AlphaInventorySpec
      reads this
    {
      AlphaInventorySpec(providerRef, credentialsRef, connectionNamespaces, connectionNsSelector, disableProvisions)
    }

    constructor ()
      ensures Spec() == AlphaInventorySpec(Key("", ""), None, None, None, None)
    {
      providerRef, credentialsRef := Key("", ""), None;
      connectionNamespaces, connectionNsSelector, disableProvisions := None, None, None;
    }

    /** Fields of a policy the source does not have keep what dst held. */
    method ConvertFrom(src: BetaInventorySpec)
      modifies this
      ensures src.policy.Some? || old(Spec()) == AlphaInventorySpec(Key("", ""), None, None, None, None) ==>
                Spec() == FromBetaSpec(src)
      ensures src.policy.None? ==>
                Spec() == old(Spec()).(providerRef := src.providerRef, credentialsRef := src.credentialsRef)
    {
      credentialsRef := src.credentialsRef;
      if src.policy.Some? {
        connectionNamespaces := src.policy.value.namespaces;
        connectionNsSelector := src.policy.value.nsSelector;
        disableProvisions := src.policy.value.disableProvisions;
      }
      providerRef := src.providerRef;
    }
  }

  // ----- Round trips -----

  lemma AlphaRoundTrip(src: AlphaInventorySpec)
    ensures FromBetaSpec(ToBetaSpec(src)) == src
  {
  }

  /** Everybody is granted and refused the same under the two policies, whatever the active policy. */
  ghost predicate SameDecisions(p: Option<AccessPolicy>, q: Option<AccessPolicy>) {
    && (forall active :: CanProvision(p, active) == CanProvision(q, active))
    && (forall namespace, home, active, cluster ::
          Decision(namespace, home, Governing(p, active), cluster)
          == Decision(namespace, home, Governing(q, active), cluster))
  }

  /** The trip through v1alpha1 keeps every access decision exactly when the inventory has no policy or one with a field
      set; an empty policy, which shields the inventory from the active policy, is lost. */
  lemma RoundTripKeepsDecisions(src: BetaInventorySpec)
    ensures SameDecisions(src.policy, ToBetaSpec(FromBetaSpec(src)).policy) <==> src.policy != Some(NO_FIELDS)
  {
    if src.policy == Some(NO_FIELDS) {
      var forbidding := Some(AccessPolicy(Some(true), None, None));
      assert CanProvision(src.policy, forbidding) != CanProvision(None, forbidding);
    } else {
      assert ToBetaSpec(FromBetaSpec(src)).policy == src.policy;
    }
  }
}
