/** The policy activation protocol: one worker elects one active DBaaSPolicy per namespace while users, the
    garbage collector and the default-policy creator change policies and quotas between any two of its API calls.

    A state holds the API server's policies and quotas, the work queue and the program counters of the two
    controllers. Every API call of a reconcile pass is a step of its own. */
module PolicyProtocol {
  import opened Keys
  import opened Wrappers

  /** The PolicyReady condition: absent, True, or False with the name of the policy that won. */
  datatype Verdict = Unset | Active | Inactive(winner: string)

  datatype Policy = Policy(uid: nat, rv: nat, ready: Verdict)

  datatype Controller = NoController | ByPolicy(name: string, uid: nat) | Foreign

  /** A ResourceQuota, reduced to its limit on policies and its controller reference. The quota named
      "dbaas-" + n is stored under the key of policy n. */
  datatype Quota = Quota(limit: int, controller: Controller)

  datatype Item = Item(name: string, policy: Policy)

  datatype Worker =
    | Idle
    | Started(key: Key)
    | Listed(key: Key, items: seq<Item>)
    | Decided(key: Key, active: Option<string>, target: string, copy: Policy, quotaDone: bool)

  datatype Creator = Resting | SawNoPolicy | SawNoDefault

  /** `transit` holds keys whose watch event or rate-limited re-add has not reached the queue yet; `queue` holds
      the dirty keys of the work queue, which may include the key being processed. */
  datatype State = State(
    policies: map<Key, Policy>,
    quotas: map<Key, Quota>,
    clock: nat,
    transit: set<Key>,
    queue: set<Key>,
    worker: Worker,
    creator: Creator,
    installNs: string)

  datatype Step =
    | Create(k: Key)
    | Edit(k: Key)
    | Delete(k: Key)
    | SetQuota(k: Key, quota: Option<Quota>)
    | Restart
    | CreatorList
    | CreatorGet
    | CreatorCreate
    | Deliver(k: Key)
    | Take(k: Key)
    | List(items: seq<Item>)
    | Get
    | WriteQuota(acknowledged: bool)
    | WriteStatus(acknowledged: bool)
    | ApiError

  // ----- The decisions of one reconcile pass -----

  /** The first policy of the list whose PolicyReady condition is True. */
  function GetActive(items: seq<Item>): (active: Option<string>)
    ensures active.None? <==> forall i :: 0 <= i < |items| ==> items[i].policy.ready != Active
    ensures active.Some? ==>
              exists i :: 0 <= i < |items| && items[i].name == active.value && items[i].policy.ready == Active
                          && forall j :: 0 <= j < i ==> items[j].policy.ready != Active
  {
    if items == [] then None
    else if items[0].policy.ready == Active then Some(items[0].name)
    else
      var rest := GetActive(items[1..]);
      assert forall i :: 1 <= i < |items| ==> items[i] == items[1..][i - 1];
      rest
  }

  function VerdictFor(active: Option<string>, name: string): Verdict {
    if active.Some? && active.value != name then Inactive(active.value) else Active
  }

  /** What a pass does after its Get: go on with the policy it found, fall back to the first listed policy when the
      requested one is gone and nothing is active, or stop. */
  function Choose(key: Key, items: seq<Item>, found: Option<Policy>): (next: Worker)
    ensures next.Idle? || next.Decided?
  {
    var active := GetActive(items);
    if found.Some? then Decided(key, active, key.name, found.value, false)
    else if |items| > 0 && active.None? then Decided(key, active, items[0].name, items[0].policy, false)
    else Idle
  }

  /** The owner keys a quota event enqueues. */
  function Owner(ns: string, quota: Option<Quota>): set<Key> {
    if quota.Some? && quota.value.controller.ByPolicy? then {Key(ns, quota.value.controller.name)} else {}
  }

  function QuotaAt(s: State, k: Key): Option<Quota> {
    if k in s.quotas then Some(s.quotas[k]) else None
  }

  /** The quota after a pass claims it for a policy; None when another controller already owns it. */
  function Claim(quota: Option<Quota>, name: string, uid: nat): (claimed: Option<Quota>) {
    if quota.None? then Some(Quota(1, ByPolicy(name, uid)))
    else if quota.value.controller.Foreign? then None
    else if quota.value.controller.ByPolicy? && quota.value.controller.name != name then None
    else Some(Quota(1, ByPolicy(name, uid)))
  }

  // ----- Steps -----

  ghost predicate IsListing(items: seq<Item>, policies: map<Key, Policy>, ns: string) {
    && (forall i :: 0 <= i < |items| ==>
          Key(ns, items[i].name) in policies && policies[Key(ns, items[i].name)] == items[i].policy)
    && (forall k :: k in policies && k.ns == ns ==> exists i :: 0 <= i < |items| && items[i].name == k.name)
    && (forall i, j :: 0 <= i < j < |items| ==> items[i].name != items[j].name)
  }

  ghost predicate Enabled(s: State, step: Step) {
    match step
    case Create(k) => k !in s.policies
    case Edit(k) => k in s.policies
    case Delete(k) => k in s.policies
    case SetQuota(_, _) => true
    case Restart => true
    case CreatorList => s.creator.Resting?
    case CreatorGet => s.creator.SawNoPolicy?
    case CreatorCreate => s.creator.SawNoDefault?
    case Deliver(k) => k in s.transit
    case Take(k) => s.worker.Idle? && k in s.queue
    case List(items) => s.worker.Started? && IsListing(items, s.policies, s.worker.key.ns)
    case Get => s.worker.Listed?
    case WriteQuota(_) => s.worker.Decided? && !s.worker.quotaDone && Wanted(s.worker) == Active
    case WriteStatus(_) => s.worker.Decided? && (s.worker.quotaDone || Wanted(s.worker) != Active)
    case ApiError => !s.worker.Idle?
  }

  function Wanted(w: Worker): Verdict
    requires w.Decided?
  {
    VerdictFor(w.active, w.target)
  }

  function Insert(s: State, k: Key): State {
    s.(policies := s.policies[k := Policy(s.clock, s.clock, Unset)],
    clock := s.clock + 1,
    transit := s.transit + {k})
  }

  function PutQuota(s: State, k: Key, quota: Option<Quota>): State {
    s.(quotas := if quota.Some? then s.quotas[k := quota.value] else s.quotas - {k},
    transit := s.transit + if quota == QuotaAt(s, k) then {} else Owner(k.ns, QuotaAt(s, k)) + Owner(k.ns, quota))
  }

  /** End the pass and re-add its request. */
  function Requeue(s: State): State
    requires !s.worker.Idle?
  {
    s.(worker := Idle, transit := s.transit + {s.worker.key})
  }

  function ApplyGet(s: State): State
    requires s.worker.Listed?
  {
    var k := s.worker.key;
    s.(worker := Choose(k, s.worker.items, if k in s.policies then Some(s.policies[k]) else None))
  }

  function ApplyWriteQuota(s: State, acknowledged: bool): State
    requires s.worker.Decided?
  {
    var k := Key(s.worker.key.ns, s.worker.target);
    var claimed := Claim(QuotaAt(s, k), k.name, s.worker.copy.uid);
    if claimed.None? then Requeue(s)
    else
      var t := PutQuota(s, k, claimed);
      if acknowledged then t.(worker := s.worker.(quotaDone := true)) else Requeue(t)
  }

  /** The status write succeeds only on the object version the pass read; an update that changes nothing neither
      bumps the version nor raises an event. */
  function ApplyWriteStatus(s: State, acknowledged: bool): State
    requires s.worker.Decided?
  {
    var k := Key(s.worker.key.ns, s.worker.target);
    if k !in s.policies || s.policies[k].uid != s.worker.copy.uid || s.policies[k].rv != s.worker.copy.rv then
      Requeue(s)
    else
      var t := SetReady(s, k, Wanted(s.worker));
      if acknowledged then t.(worker := Idle) else Requeue(t)
  }

  function SetReady(s: State, k: Key, verdict: Verdict): State
    requires k in s.policies
  {
    if s.policies[k].ready == verdict then s
    else
      s.(policies := s.policies[k := s.policies[k].(rv := s.clock, ready := verdict)],
      clock := s.clock + 1,
      transit := s.transit + {k})
  }

  function DefaultKey(s: State): Key {
    Key(s.installNs, "cluster")
  }

  ghost function Apply(s: State, step: Step): State
    requires Enabled(s, step)
  {
    match step
    case Create(k) => Insert(s, k)
    case Edit(k) =>
      s.(policies := s.policies[k := s.policies[k].(rv := s.clock)], clock := s.clock + 1, transit := s.transit + {k})
    case Delete(k) => s.(policies := s.policies - {k}, transit := s.transit + {k})
    case SetQuota(k, quota) => PutQuota(s, k, quota)
    case Restart =>
      // The informers of the new process list every policy and every quota and enqueue their keys.
      s.(worker := Idle, creator := Resting, queue := {},
      transit := s.policies.Keys + set k <- s.quotas.Keys, o <- Owner(k.ns, Some(s.quotas[k])) :: o)
    case CreatorList =>
      s.(creator := if exists k :: k in s.policies && k.ns == s.installNs then Resting else SawNoPolicy)
    case CreatorGet => s.(creator := if DefaultKey(s) in s.policies then Resting else SawNoDefault)
    case CreatorCreate =>
      // Creating an existing object fails and is retried from the list.
      (if DefaultKey(s) in s.policies then s else Insert(s, DefaultKey(s))).(creator := Resting)
    case Deliver(k) => s.(transit := s.transit - {k}, queue := s.queue + {k})
    case Take(k) => s.(queue := s.queue - {k}, worker := Started(k))
    case List(items) => s.(worker := Listed(s.worker.key, items))
    case Get => ApplyGet(s)
    case WriteQuota(acknowledged) => ApplyWriteQuota(s, acknowledged)
    case WriteStatus(acknowledged) => ApplyWriteStatus(s, acknowledged)
    case ApiError => Requeue(s)
  }

  // ----- Runs -----

  /** The operator starts over a store that may hold statuses of an earlier run, at most one True a namespace. */
  ghost predicate Init(s: State) {
    && AtMostOneActive(s)
    && s.worker.Idle?
    && s.creator.Resting?
    && s.policies.Keys <= s.transit
    && (forall k :: k in s.policies ==> s.policies[k].uid < s.clock && s.policies[k].rv < s.clock)
  }

  ghost predicate IsRun(s: State, steps: seq<Step>)
    decreases |steps|
  {
    steps == [] || (Enabled(s, steps[0]) && IsRun(Apply(s, steps[0]), steps[1..]))
  }

  ghost function After(s: State, steps: seq<Step>): State
    requires IsRun(s, steps)
    decreases |steps|
  {
    if steps == [] then s else After(Apply(s, steps[0]), steps[1..])
  }

  predicate IsActive(s: State, k: Key) {
    k in s.policies && s.policies[k].ready == Active
  }

  ghost predicate AtMostOneActive(s: State) {
    forall k1, k2 :: IsActive(s, k1) && IsActive(s, k2) && k1.ns == k2.ns ==> k1 == k2
  }
}
