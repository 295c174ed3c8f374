/** Who may use an inventory: the namespace decision and the provisioning decision. */
module Access {
  import opened Wrappers

  datatype Operator = In | NotIn | Exists | DoesNotExist | OtherOperator(text: string)

  datatype Requirement = Requirement(key: string, operator: Operator, values: seq<string>)

  /** A label selector: requirements joined by AND. */
  type Selector = seq<Requirement>

  type Labels = map<string, string>

  predicate WellFormed(requirement: Requirement) {
    match requirement.operator
    case In => requirement.values != []
    case NotIn => requirement.values != []
    case Exists => requirement.values == []
    case DoesNotExist => requirement.values == []
    case OtherOperator(_) => false
  }

  predicate Meets(labels: Labels, requirement: Requirement) {
    match requirement.operator
    case In => requirement.key in labels && labels[requirement.key] in requirement.values
    case NotIn => requirement.key !in labels || labels[requirement.key] !in requirement.values
    case Exists => requirement.key in labels
    case DoesNotExist => requirement.key !in labels
    case OtherOperator(_) => false
  }

  predicate Selected(labels: Labels, selector: Selector) {
    forall i :: 0 <= i < |selector| ==> Meets(labels, selector[i])
  }

  predicate SelectorOk(selector: Selector) {
    forall i :: 0 <= i < |selector| ==> WellFormed(selector[i])
  }

  /** NotIn and DoesNotExist are the opposites of In and Exists, so a missing key meets NotIn; an empty selector selects
      everything, and two selectors together select what both select. */
  lemma SelectorLaws(labels: Labels, key: string, values: seq<string>, a: Selector, b: Selector)
    ensures Meets(labels, Requirement(key, NotIn, values)) <==> !Meets(labels, Requirement(key, In, values))
    ensures Meets(labels, Requirement(key, DoesNotExist, [])) <==> !Meets(labels, Requirement(key, Exists, []))
    ensures Meets(labels, Requirement(key, In, values)) ==> Meets(labels, Requirement(key, Exists, []))
    ensures key in labels && labels[key] in values ==> Meets(labels, Requirement(key, In, values))
    ensures Selected(labels, [])
    ensures Selected(labels, a + b) <==> Selected(labels, a) && Selected(labels, b)
  {
    if Selected(labels, a + b) {
      forall i | 0 <= i < |a| ensures Meets(labels, a[i]) {
        assert (a + b)[i] == a[i];
      }
      forall i | 0 <= i < |b| ensures Meets(labels, b[i]) {
        assert (a + b)[|a| + i] == b[i];
      }
    }
  }

  datatype AccessPolicy = AccessPolicy(
    disableProvisions: Option<bool>,
    namespaces: Option<seq<string>>,
    nsSelector: Option<Selector>)

  datatype AccessError = MalformedSelector | ListFailed

  /** The cluster's namespaces with their labels, when the list call works. */
  type Cluster = Result<map<string, Labels>, AccessError>

  // ----- Provisioning -----

  /** Provisioning needs an active policy; the inventory's own policy, when it has one, speaks alone. */
  function CanProvision(policy: Option<AccessPolicy>, active: Option<AccessPolicy>): bool {
    if active.None? then false
    else if policy.Some? then policy.value.disableProvisions != Some(true)
    else active.value.disableProvisions != Some(true)
  }

  /** An active policy is there, and whichever policy governs does not forbid it. */
  ghost predicate NothingForbids(policy: Option<AccessPolicy>, active: Option<AccessPolicy>) {
    && active.Some?
    && (policy.Some? ==> policy.value.disableProvisions != Some(true))
    && (policy.None? ==> active.value.disableProvisions != Some(true))
  }

  lemma ProvisionIff(policy: Option<AccessPolicy>, active: Option<AccessPolicy>)
    ensures CanProvision(policy, active) <==> NothingForbids(policy, active)
  {
  }

  method CanProvisionBranches(policy: Option<AccessPolicy>, active: Option<AccessPolicy>) returns (ok: bool)
    ensures ok == CanProvision(policy, active)
    ensures ok <==> NothingForbids(policy, active)
  {
    if active.None? {
      return false;
    }
    if policy.Some? {
      if policy.value.disableProvisions.Some? {
        return !policy.value.disableProvisions.value;
      }
    } else {
      if active.value.disableProvisions.Some? {
        return !active.value.disableProvisions.value;
      }
    }
    return true;
  }

  // ----- The namespace decision -----

  function Governing(policy: Option<AccessPolicy>, active: Option<AccessPolicy>): Option<AccessPolicy> {
    if policy.Some? then policy else active
  }

  predicate Named(governing: Option<AccessPolicy>, namespace: string) {
    && governing.Some? && governing.value.namespaces.Some?
    && ("*" in governing.value.namespaces.value || namespace in governing.value.namespaces.value)
  }

  function SelectorOf(governing: Option<AccessPolicy>): Option<Selector> {
    if governing.Some? then governing.value.nsSelector else None
  }

  /** A namespace may connect if it is the inventory's own, or the governing policy names it or all, or selects it by
      its labels. Only the last case can fail. */
  function Decision(namespace: string, home: string, governing: Option<AccessPolicy>, cluster: Cluster)
    : Result<bool, AccessError>
  {
    if namespace == home || Named(governing, namespace) then Ok(true)
    else
      match SelectorOf(governing)
      case None => Ok(false)
      case Some(selector) =>
        if !SelectorOk(selector) then Err(MalformedSelector)
        else if cluster.Err? then Err(cluster.error)
        else Ok(namespace in cluster.value && Selected(cluster.value[namespace], selector))
  }

  /** What the answer must be: yes for the inventory's own namespace, a name or an asterisk in the governing list, or
      labels that meet a well-formed selector; an error only when names did not decide and the selector is malformed or
      the list of namespaces cannot be had; no otherwise. */
  ghost predicate RightAnswer(namespace: string, home: string, policy: Option<AccessPolicy>,
                              active: Option<AccessPolicy>, cluster: Cluster, answer: Result<bool, AccessError>)
  {
    var governing := if policy.Some? then policy else active;
    var names := if governing.Some? && governing.value.namespaces.Some? then governing.value.namespaces.value else [];
    var selector := if governing.Some? then governing.value.nsSelector else None;
    var byName := namespace == home || "*" in names || namespace in names;
    var malformed := selector.Some? && exists r <- selector.value :: !WellFormed(r);
    var asked := !byName && selector.Some? && !malformed;
    var byLabels := asked && cluster.Ok? && namespace in cluster.value
                    && forall r <- selector.value :: Meets(cluster.value[namespace], r);
    && (answer == Ok(true) <==> byName || byLabels)
    && (answer == Ok(false) <==> !byName && !malformed && (selector.None? || (cluster.Ok? && !byLabels)))
    && (answer.Err? <==> !byName && (malformed || (selector.Some? && cluster.Err?)))
    && (answer.Err? ==> answer.error == if malformed then MalformedSelector else cluster.error)
  }

  lemma DecisionIsRight(namespace: string, home: string, policy: Option<AccessPolicy>, active: Option<AccessPolicy>,
                        cluster: Cluster)
    ensures RightAnswer(namespace, home, policy, active, cluster,
                        Decision(namespace, home, Governing(policy, active), cluster))
  {
    var selector := SelectorOf(Governing(policy, active));
    if selector.Some? && !SelectorOk(selector.value) {
      var i :| 0 <= i < |selector.value| && !WellFormed(selector.value[i]);
      assert selector.value[i] in selector.value;
    }
  }

  lemma RightAnswerUnique(namespace: string, home: string, policy: Option<AccessPolicy>, active: Option<AccessPolicy>,
                          cluster: Cluster, a: Result<bool, AccessError>, b: Result<bool, AccessError>)
    requires RightAnswer(namespace, home, policy, active, cluster, a)
    requires RightAnswer(namespace, home, policy, active, cluster, b)
    ensures a == b
  {
    if a != Ok(true) && a != Ok(false) {
      assert a.Err? && b.Err?;
    }
  }

  method Contains(s: seq<string>, str: string) returns (found: bool)
    ensures found <==> str in s
  {
    for i := 0 to |s|
      invariant str !in s[..i]
    {
      if s[i] == str {
        return true;
      }
    }
    return false;
  }

  method ListSelected(namespaces: map<string, Labels>, selector: Selector) returns (names: seq<string>)
    ensures forall n :: n in names <==> n in namespaces && Selected(namespaces[n], selector)
  {
    names := [];
    var rest := namespaces.Keys;
    while rest != {}
      invariant rest <= namespaces.Keys
      invariant forall n :: n in names <==> n in namespaces && n !in rest && Selected(namespaces[n], selector)
      decreases |rest|
    {
      var n :| n in rest;
      rest := rest - {n};
      if Selected(namespaces[n], selector) {
        names := names + [n];
      }
    }
  }

  method IsValidConnectionNS(namespace: string, home: string, policy: Option<AccessPolicy>,
                             active: Option<AccessPolicy>, cluster: Cluster)
    returns (valid: Result<bool, AccessError>)
    ensures valid == Decision(namespace, home, Governing(policy, active), cluster)
    ensures RightAnswer(namespace, home, policy, active, cluster, valid)
  {
    DecisionIsRight(namespace, home, policy, active, cluster);
    if namespace == home {
      return Ok(true);
    }
    var validNamespaces: seq<string> := [];
    var validNsSelector: Option<Selector> := None;
    if policy.Some? {
      if policy.value.namespaces.Some? {
        validNamespaces := policy.value.namespaces.value;
      }
      if policy.value.nsSelector.Some? {
        validNsSelector := policy.value.nsSelector;
      }
    } else {
      if active.Some? {
        if active.value.namespaces.Some? {
          validNamespaces := active.value.namespaces.value;
        }
        if active.value.nsSelector.Some? {
          validNsSelector := active.value.nsSelector;
        }
      }
    }
    var all := Contains(validNamespaces, "*");
    var named := Contains(validNamespaces, namespace);
    if all || named {
      return Ok(true);
    }
    if validNsSelector.Some? {
      if exists i :: 0 <= i < |validNsSelector.value| && !WellFormed(validNsSelector.value[i]) {
        return Err(MalformedSelector);
      }
      if cluster.Err? {
        return Err(cluster.error);
      }
      var selected := ListSelected(cluster.value, validNsSelector.value);
      ghost var before := validNamespaces;
      for i := 0 to |selected|
        invariant validNamespaces == before + selected[..i]
      {
        validNamespaces := validNamespaces + [selected[i]];
      }
    }
    var found := Contains(validNamespaces, namespace);
    return Ok(found);
  }

  // ----- What the decision promises -----

  /** An inventory with a policy of its own ignores the active policy's namespaces. */
  lemma OwnPolicyHidesActive(namespace: string, home: string, policy: AccessPolicy, active1: Option<AccessPolicy>,
                             active2: Option<AccessPolicy>, cluster: Cluster)
    ensures Decision(namespace, home, Governing(Some(policy), active1), cluster)
            == Decision(namespace, home, Governing(Some(policy), active2), cluster)
    ensures active1.Some? && active2.Some? ==>
              CanProvision(Some(policy), active1) == CanProvision(Some(policy), active2)
  {
  }

  /** Naming more namespaces never takes access away and never turns an answer into an error. */
  lemma MoreNamesMoreAccess(namespace: string, home: string, policy: AccessPolicy, more: seq<string>, cluster: Cluster)
    ensures var before := Decision(namespace, home, Some(policy), cluster);
            var names := if policy.namespaces.Some? then policy.namespaces.value else [];
            var after := Decision(namespace, home, Some(policy.(namespaces := Some(names + more))), cluster);
            && (before == Ok(true) ==> after == Ok(true))
            && (before.Ok? ==> after.Ok?)
            && (after != before ==> after == Ok(true) && ("*" in more || namespace in more))
  {
  }

  // ----- Overriding field by field -----

  /** The reading of the comments on the connection fields: an inventory overrides each field on its own. */
  function Overridden(policy: Option<AccessPolicy>, active: Option<AccessPolicy>): Option<AccessPolicy> {
    if policy.None? then active
    else if active.None? then policy
    else
      Some(AccessPolicy(
             Either(policy.value.disableProvisions, active.value.disableProvisions),
             Either(policy.value.namespaces, active.value.namespaces),
             Either(policy.value.nsSelector, active.value.nsSelector)))
  }

  function Either<T>(own: Option<T>, other: Option<T>): Option<T> {
    if own.Some? then own else other
  }

  ghost predicate DecidesAlike(p: Option<AccessPolicy>, q: Option<AccessPolicy>) {
    forall namespace, home, cluster :: Decision(namespace, home, p, cluster) == Decision(namespace, home, q, cluster)
  }

  /** The active policy has no connection field that the inventory's policy leaves to it and that could still matter. */
  predicate NothingLeftOut(policy: AccessPolicy, active: AccessPolicy) {
    && (policy.namespaces.Some? || active.namespaces in {None, Some([])})
    && (policy.nsSelector.Some? || active.nsSelector.None?
        || (policy.namespaces.Some? && "*" in policy.namespaces.value))
  }

  lemma {:induction false} LongerThanAll(names: seq<string>) returns (name: string)
    ensures forall n <- names :: |n| < |name|
    decreases |names|
  {
    if names == [] {
      name := "a";
    } else {
      var rest := LongerThanAll(names[1..]);
      name := rest + names[0] + "a";
      assert forall n :: n in names <==> n == names[0] || n in names[1..];
    }
  }

  /** An active policy that the inventory should have left in force, and a namespace that shows it was not. */
  lemma LeftOutShows(policy: AccessPolicy, active: AccessPolicy)
    returns (namespace: string, home: string, cluster: Cluster)
    requires !NothingLeftOut(policy, active)
    ensures Decision(namespace, home, Governing(Some(policy), Some(active)), cluster)
            != Decision(namespace, home, Overridden(Some(policy), Some(active)), cluster)
  {
    cluster := Err(ListFailed);
    if policy.namespaces.None? && active.namespaces !in {None, Some([])} {
      namespace := active.namespaces.value[0];
      assert namespace in active.namespaces.value;
    } else {
      namespace := LongerThanAll((if policy.namespaces.Some? then policy.namespaces.value else []) + ["*"]);
    }
    home := namespace + "h";
    assert |home| != |namespace|;
  }

  /** The code decides about connections as field-by-field overriding would, for all namespaces and clusters, exactly
      when one of the two policies is absent or the inventory's leaves nothing to the active one that could matter. */
  lemma OverridesFieldsIff(policy: Option<AccessPolicy>, active: Option<AccessPolicy>)
    ensures DecidesAlike(Governing(policy, active), Overridden(policy, active))
            <==> policy.None? || active.None? || NothingLeftOut(policy.value, active.value)
  {
    if policy.Some? && active.Some? && !NothingLeftOut(policy.value, active.value) {
      var namespace, home, cluster := LeftOutShows(policy.value, active.value);
    }
  }

  /** And about provisioning exactly when the inventory decides it or the active policy does not forbid it. */
  lemma OverridesProvisionsIff(policy: Option<AccessPolicy>, active: Option<AccessPolicy>)
    ensures CanProvision(policy, active) == CanProvision(Overridden(policy, active), active)
            <==> policy.None? || active.None? || policy.value.disableProvisions.Some?
                 || active.value.disableProvisions != Some(true)
  {
  }

  /** An inventory whose policy only forbids provisioning shuts out a namespace that the active policy names. */
  lemma OverrideFails() returns (policy: AccessPolicy, active: AccessPolicy)
    ensures policy == AccessPolicy(Some(true), None, None) && active == AccessPolicy(None, Some(["team"]), None)
    ensures Decision("team", "home", Governing(Some(policy), Some(active)), Ok(map[])) == Ok(false)
    ensures Decision("team", "home", Overridden(Some(policy), Some(active)), Ok(map[])) == Ok(true)
  {
    policy, active := AccessPolicy(Some(true), None, None), AccessPolicy(None, Some(["team"]), None);
    assert "team"[0] != "home"[0];
    assert "team" in ["team"];
  }
}
