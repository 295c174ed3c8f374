/** The policy reconciler as the step-by-step code it is, over an API server object. An uninterrupted Reconcile is the
    run of protocol steps called Pass. */
module PolicyReconciler {
  import opened Keys
  import opened Wrappers
  import opened PolicyProtocol
  import opened PolicyConvergence
  import opened PolicySweep

  class ApiServer {
    var policies: map<Key, Policy>
    var quotas: map<Key, Quota>
    var clock: nat
    var events: set<Key>

    /** The store as a protocol state with an idle worker. */
    function Snapshot(): State
      reads this
    {
      State(policies, quotas, clock, events, {}, Idle, Resting, "")
    }

    constructor ()
      ensures Snapshot() == State(map[], map[], 0, {}, {}, Idle, Resting, "")
    {
      policies, quotas, clock, events := map[], map[], 0, {};
    }

    /** The order of a list answer is up to the server. */
    method ListPolicies(ns: string) returns (order: seq<string>)
      ensures ListOrder(order, Snapshot(), ns)
    {
      order := [];
      var rest := set k | k in policies && k.ns == ns;
      ghost var all := rest;
      while rest != {}
        invariant rest <= all
        invariant Names(order, Snapshot(), ns)
        invariant forall k :: k in all && k !in rest ==> k.name in order
        invariant forall i :: 0 <= i < |order| ==> Key(ns, order[i]) !in rest
        invariant forall i, j :: 0 <= i < j < |order| ==> order[i] != order[j]
        decreases |rest|
      {
        var k :| k in rest;
        order := order + [k.name];
        rest := rest - {k};
      }
      var items := Items(order, Snapshot(), ns);
      forall k | k in policies && k.ns == ns ensures exists i :: 0 <= i < |items| && items[i].name == k.name {
        assert k.name in order;
        var i :| 0 <= i < |order| && order[i] == k.name;
        assert items[i].name == k.name;
      }
    }

    /** Create the quota or bring it under the policy's control; false when another controller owns it. */
    method CreateOrUpdateQuota(k: Key, uid: nat) returns (ok: bool)
      modifies this
      ensures ok == Claim(QuotaAt(old(Snapshot()), k), k.name, uid).Some?
      ensures Snapshot() == if ok then PutQuota(old(Snapshot()), k, Claim(QuotaAt(old(Snapshot()), k), k.name, uid))
                            else old(Snapshot())
    {
      if k !in quotas {
        quotas := quotas[k := Quota(1, ByPolicy(k.name, uid))];
        events := events + {k};
        return true;
      }
      var quota := quotas[k];
      if quota.controller.Foreign? || (quota.controller.ByPolicy? && quota.controller.name != k.name) {
        return false;
      }
      var claimed := Quota(1, ByPolicy(k.name, uid));
      if quota != claimed {
        quotas := quotas[k := claimed];
        events := events + {k};
      }
      return true;
    }

    method UpdateStatus(k: Key, copy: Policy, verdict: Verdict) returns (conflict: bool)
      modifies this
      ensures conflict <==> k !in old(policies) || old(policies)[k].uid != copy.uid || old(policies)[k].rv != copy.rv
      ensures Snapshot() == if conflict then old(Snapshot()) else SetReady(old(Snapshot()), k, verdict)
    {
      if k !in policies || policies[k].uid != copy.uid || policies[k].rv != copy.rv {
        return true;
      }
      if policies[k].ready != verdict {
        policies := policies[k := policies[k].(rv := clock, ready := verdict)];
        clock := clock + 1;
        events := events + {k};
      }
      return false;
    }
  }

  method FindActive(items: seq<Item>) returns (active: Option<string>)
    ensures active == GetActive(items)
  {
    for i := 0 to |items|
      invariant forall j :: 0 <= j < i ==> items[j].policy.ready != Active
    {
      if items[i].policy.ready == Active {
        FirstActiveIs(items, i);
        return Some(items[i].name);
      }
    }
    return None;
  }

  // ----- Calls that fail -----

  /** The call of a pass that fails, if any; a failing write may have been applied with only its answer lost. */
  datatype Fault = NoFault | ListFails | GetFails | QuotaFails(applied: bool) | StatusFails(applied: bool)

  function ClaimWith(got: State, fault: Fault): State
    requires got.worker.Decided?
  {
    if Wanted(got.worker) != Active then got
    else if !fault.QuotaFails? then ApplyWriteQuota(got, true)
    else if fault.applied then ApplyWriteQuota(got, false)
    else Requeue(got)
  }

  function WriteWith(claimed: State, fault: Fault): State
    requires claimed.worker.Decided?
  {
    if !fault.StatusFails? then ApplyWriteStatus(claimed, true)
    else if fault.applied then ApplyWriteStatus(claimed, false)
    else Requeue(claimed)
  }

  function RestWith(got: State, fault: Fault): State
    requires got.worker.Decided?
  {
    var claimed := ClaimWith(got, fault);
    if claimed.worker.Idle? then claimed else WriteWith(claimed, fault)
  }

  /** A pass of which one call may fail; a fault of a call that the pass does not make has no effect. */
  function PassWith(s: State, key: Key, order: seq<string>, fault: Fault): State
    requires Names(order, s, key.ns)
  {
    if fault.ListFails? || fault.GetFails? then Requeue(Begin(s, key))
    else
      var got := ApplyGet(s.(worker := Listed(key, Items(order, s, key.ns))));
      if got.worker.Idle? then got else RestWith(got, fault)
  }

  lemma NoFaultIsPass(s: State, key: Key, order: seq<string>)
    requires Names(order, s, key.ns)
    ensures PassWith(s, key, order, NoFault) == Pass(s, key, order)
  {
  }

  lemma WriteIsRun(claimed: State, fault: Fault) returns (steps: seq<Step>)
    requires claimed.worker.Decided? && (claimed.worker.quotaDone || Wanted(claimed.worker) != Active)
    ensures IsRun(claimed, steps) && After(claimed, steps) == WriteWith(claimed, fault)
  {
    var step :=
      if !fault.StatusFails? then WriteStatus(true) else if fault.applied then WriteStatus(false) else ApiError;
    RunStarts(claimed, step, []);
    steps := [step] + [];
  }

  lemma RestIsRun(got: State, fault: Fault) returns (steps: seq<Step>)
    requires got.worker.Decided? && !got.worker.quotaDone
    ensures IsRun(got, steps) && After(got, steps) == RestWith(got, fault)
  {
    var claimed := ClaimWith(got, fault);
    steps := [];
    if claimed.worker.Decided? {
      steps := WriteIsRun(claimed, fault);
    }
    if Wanted(got.worker) == Active {
      var step :=
        if !fault.QuotaFails? then WriteQuota(true) else if fault.applied then WriteQuota(false) else ApiError;
      RunStarts(got, step, steps);
      steps := [step] + steps;
    }
  }

  /** Every pass, with whatever call failing, is a run of protocol steps. */
  lemma PassWithIsRun(s: State, key: Key, order: seq<string>, fault: Fault) returns (steps: seq<Step>)
    requires ListOrder(order, s, key.ns)
    ensures IsRun(Begin(s, key), steps) && After(Begin(s, key), steps) == PassWith(s, key, order, fault)
  {
    var items := Items(order, s, key.ns);
    var begun := Begin(s, key);
    if fault.ListFails? {
      RunStarts(begun, ApiError, []);
      return [ApiError] + [];
    }
    var listed := Apply(begun, List(items));
    assert listed == s.(worker := Listed(key, items));
    if fault.GetFails? {
      RunStarts(listed, ApiError, []);
      steps := [ApiError] + [];
    } else {
      var got := ApplyGet(listed);
      steps := [];
      if got.worker.Decided? {
        steps := RestIsRun(got, fault);
      }
      RunStarts(listed, Get, steps);
      steps := [Get] + steps;
    }
    RunStarts(begun, List(items), steps);
    steps := [List(items)] + steps;
  }

  // ----- The pass itself -----

  lemma ClaimIs(s: State, worker: Worker, acknowledged: bool)
    requires s.worker.Idle? && worker.Decided?
    ensures var k := Key(worker.key.ns, worker.target);
            var claimed := Claim(QuotaAt(s, k), k.name, worker.copy.uid);
            ApplyWriteQuota(s.(worker := worker), acknowledged)
            == if claimed.None? then s.(transit := s.transit + {worker.key})
               else
                 var t := PutQuota(s, k, claimed);
                 if acknowledged then t.(worker := worker.(quotaDone := true))
                 else t.(transit := t.transit + {worker.key})
  {
  }

  lemma WriteIs(s: State, worker: Worker, acknowledged: bool)
    requires s.worker.Idle? && worker.Decided?
    ensures var k := Key(worker.key.ns, worker.target);
            ApplyWriteStatus(s.(worker := worker), acknowledged)
            == if k !in s.policies || s.policies[k].uid != worker.copy.uid || s.policies[k].rv != worker.copy.rv
               then s.(transit := s.transit + {worker.key})
               else
                 var t := SetReady(s, k, Wanted(worker));
                 if acknowledged then t else t.(transit := t.transit + {worker.key})
  {
  }

  /** The state a pass leaves, with its request back on the way to the queue if it is to be retried. */
  function Left(s: State, key: Key, requeue: bool): State {
    s.(transit := s.transit + if requeue then {key} else {})
  }

  method ClaimQuota(server: ApiServer, worker: Worker, fault: Fault) returns (ok: bool)
    requires worker.Decided? && Wanted(worker) == Active
    modifies server
    ensures var s := old(server.Snapshot());
            ClaimWith(s.(worker := worker), fault)
            == if ok then server.Snapshot().(worker := worker.(quotaDone := true))
               else Left(server.Snapshot(), worker.key, true)
  {
    ClaimIs(server.Snapshot(), worker, !fault.QuotaFails?);
    if fault == QuotaFails(false) {
      return false;
    }
    ok := server.CreateOrUpdateQuota(Key(worker.key.ns, worker.target), worker.copy.uid);
    if fault.QuotaFails? {
      return false;
    }
  }

  method UpdateStatusCondition(server: ApiServer, worker: Worker, fault: Fault) returns (requeue: bool)
    requires worker.Decided?
    modifies server
    ensures WriteWith(old(server.Snapshot()).(worker := worker), fault) == Left(server.Snapshot(), worker.key, requeue)
  {
    WriteIs(server.Snapshot(), worker, !fault.StatusFails?);
    if fault == StatusFails(false) {
      return true;
    }
    requeue := server.UpdateStatus(Key(worker.key.ns, worker.target), worker.copy, Wanted(worker));
    if fault.StatusFails? {
      return true;
    }
  }

  method FinishPass(server: ApiServer, worker: Worker, fault: Fault) returns (requeue: bool)
    requires worker.Decided? && !worker.quotaDone
    modifies server
    ensures RestWith(old(server.Snapshot()).(worker := worker), fault) == Left(server.Snapshot(), worker.key, requeue)
  {
    if Wanted(worker) == Active {
      var ok := ClaimQuota(server, worker, fault);
      if !ok {
        return true;
      }
      requeue := UpdateStatusCondition(server, worker.(quotaDone := true), fault);
    } else {
      requeue := UpdateStatusCondition(server, worker, fault);
    }
  }

  /** One pass for a request, with no other step in between; `order` is the order in which the list was answered.
      A requeued request returns to the queue. */
  method Reconcile(server: ApiServer, key: Key, fault: Fault) returns (order: seq<string>, requeue: bool)
    modifies server
    ensures ListOrder(order, old(server.Snapshot()), key.ns)
    ensures Left(server.Snapshot(), key, requeue) == PassWith(old(server.Snapshot()), key, order, fault)
  {
    order := server.ListPolicies(key.ns);
    if fault.ListFails? {
      return order, true;
    }
    var items := Items(order, server.Snapshot(), key.ns);
    var active := FindActive(items);

    var name: string;
    var policy: Policy;
    if fault.GetFails? {
      return order, true;
    } else if key in server.policies {
      name, policy := key.name, server.policies[key];
    } else if |items| > 0 && active.None? {
      name, policy := items[0].name, items[0].policy;
    } else {
      return order, false;
    }
    requeue := FinishPass(server, Decided(key, active, name, policy, false), fault);
  }
}
