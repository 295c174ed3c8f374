/** No work is ever lost: whenever the queue is empty and the worker idle, every namespace with a policy has exactly
    one active policy, whose quota it controls, and every other policy is marked inactive. */
module PolicyQuiescence {
  import opened Keys
  import opened Wrappers
  import opened PolicyProtocol
  import opened PolicySafety

  predicate Pending(s: State, k: Key) {
    k in s.transit || k in s.queue
  }

  ghost predicate PendingIn(s: State, ns: string) {
    exists k: Key :: k.ns == ns && Pending(s, k)
  }

  ghost predicate NoneActive(s: State, ns: string) {
    forall k :: IsActive(s, k) ==> k.ns != ns
  }

  /** The pass in flight ends by activating a policy of ns or by re-adding its request. */
  predicate WillActivate(s: State, ns: string) {
    match s.worker
    case Idle => false
    case Started(key) => key.ns == ns
    case Listed(key, items) => key.ns == ns && GetActive(items).None? && items != []
    case Decided(key, _, _, _, _) => key.ns == ns && Wanted(s.worker) == Active
  }

  /** Policies exist and none is active implies a request is pending or in flight. */
  ghost predicate ElectionOwed(s: State) {
    forall k :: k in s.policies && NoneActive(s, k.ns) ==> PendingIn(s, k.ns) || WillActivate(s, k.ns)
  }

  /** The pass in flight is about policy k itself. */
  predicate Handling(s: State, k: Key)
    requires k in s.policies
  {
    match s.worker
    case Idle => false
    case Started(key) => key == k
    case Listed(key, _) => key == k
    case Decided(key, _, target, copy, _) => key == k && target == k.name && copy.uid == s.policies[k].uid
  }

  ghost predicate VerdictOwed(s: State) {
    forall k :: k in s.policies && s.policies[k].ready == Unset ==> Pending(s, k) || Handling(s, k)
  }

  /** The quota of policy k limits the namespace to one policy and is controlled by this very object. */
  predicate QuotaGood(s: State, k: Key)
    requires k in s.policies
  {
    QuotaAt(s, k) == Some(Quota(1, ByPolicy(k.name, s.policies[k].uid)))
  }

  predicate WillClaim(s: State, k: Key)
    requires k in s.policies
  {
    match s.worker
    case Idle => false
    case Started(key) => key == k
    case Listed(key, _) => key == k
    case Decided(key, _, _, _, quotaDone) => Handling(s, k) && Wanted(s.worker) == Active && !quotaDone
  }

  ghost predicate QuotaOwed(s: State) {
    forall k :: IsActive(s, k) ==> QuotaGood(s, k) || Pending(s, k) || WillClaim(s, k)
  }

  ghost predicate Inv(s: State) {
    Safe(s) && ElectionOwed(s) && VerdictOwed(s) && QuotaOwed(s)
  }

  lemma InitInv(s: State)
    requires Init(s)
    ensures Inv(s)
  {
    forall k | k in s.policies ensures PendingIn(s, k.ns) {
      assert Pending(s, k);
    }
  }

  // ----- Each invariant through each step -----

  lemma TakeKeepsElectionOwed(s: State, k: Key)
    requires Inv(s) && Enabled(s, Take(k))
    ensures ElectionOwed(Apply(s, Take(k)))
  {
    var t := Apply(s, Take(k));
    forall p | p in t.policies && NoneActive(t, p.ns) ensures PendingIn(t, p.ns) || WillActivate(t, p.ns) {
      assert NoneActive(s, p.ns);
      var q: Key :| q.ns == p.ns && Pending(s, q);
      if q != k {
        assert Pending(t, q);
      }
    }
  }

  lemma PendingStays(s: State, step: Step, k: Key)
    requires Enabled(s, step) && !step.Take? && !step.Restart? && Pending(s, k)
    ensures Pending(Apply(s, step), k)
  {
  }

  lemma VerdictStaysOwed(s: State, step: Step)
    requires VerdictOwed(s) && Enabled(s, step)
    ensures VerdictOwed(Apply(s, step))
  {
    var t := Apply(s, step);
    forall k | k in t.policies && t.policies[k].ready == Unset ensures Pending(t, k) || Handling(t, k) {
      if step.Restart? || k !in s.policies || s.policies[k].ready != Unset {
        assert Pending(t, k);
      } else if Pending(s, k) && !step.Take? {
        PendingStays(s, step, k);
      } else {
        UnsetStaysOwed(s, step, k);
      }
    }
  }

  lemma UnsetStaysOwed(s: State, step: Step, k: Key)
    requires Enabled(s, step) && !step.Restart? && (step.Take? || !Pending(s, k))
    requires k in s.policies && (Pending(s, k) || Handling(s, k))
    requires k in Apply(s, step).policies && Apply(s, step).policies[k].ready == Unset
    ensures Pending(Apply(s, step), k) || Handling(Apply(s, step), k)
  {
    if step.Take? {
    } else if step.Get? || step.WriteStatus? {
      WorkerKeepsUnsetOwed(s, step, k);
    } else {
      assert Handling(s, k);
    }
  }

  lemma WorkerKeepsUnsetOwed(s: State, step: Step, k: Key)
    requires Enabled(s, step) && (step.Get? || step.WriteStatus?)
    requires k in s.policies && Handling(s, k)
    requires k in Apply(s, step).policies && Apply(s, step).policies[k].ready == Unset
    ensures Pending(Apply(s, step), k) || Handling(Apply(s, step), k)
  {
  }

  lemma QuotaStaysOwed(s: State, step: Step)
    requires Inv(s) && Enabled(s, step)
    ensures QuotaOwed(Apply(s, step))
  {
    var t := Apply(s, step);
    forall k | IsActive(t, k) ensures QuotaGood(t, k) || Pending(t, k) || WillClaim(t, k) {
      if step.Restart? {
      } else if !IsActive(s, k) {
        assert Pending(t, k);
      } else {
        ActiveQuotaStaysOwed(s, step, k);
      }
    }
  }

  lemma ActiveQuotaStaysOwed(s: State, step: Step, k: Key)
    requires Inv(s) && Enabled(s, step) && !step.Restart? && IsActive(s, k) && IsActive(Apply(s, step), k)
    ensures var t := Apply(s, step); QuotaGood(t, k) || Pending(t, k) || WillClaim(t, k)
  {
    if step.WriteQuota? {
      if Pending(s, k) {
        PendingStays(s, step, k);
      } else {
        ClaimedQuota(s, step.acknowledged, k);
      }
    } else if step.Get? || step.WriteStatus? {
      WorkerKeepsQuotaOwed(s, step, k);
    } else {
      OthersKeepQuotaOwed(s, step, k);
    }
  }

  lemma WorkerKeepsQuotaOwed(s: State, step: Step, k: Key)
    requires Inv(s) && Enabled(s, step) && (step.Get? || step.WriteStatus?)
    requires IsActive(s, k) && IsActive(Apply(s, step), k)
    ensures var t := Apply(s, step); QuotaGood(t, k) || Pending(t, k) || WillClaim(t, k)
  {
  }

  lemma OthersKeepQuotaOwed(s: State, step: Step, k: Key)
    requires Inv(s) && Enabled(s, step) && !step.Restart? && !step.Get? && !step.WriteQuota? && !step.WriteStatus?
    requires IsActive(s, k) && IsActive(Apply(s, step), k)
    ensures var t := Apply(s, step); QuotaGood(t, k) || Pending(t, k) || WillClaim(t, k)
  {
    if Pending(s, k) && !step.Take? {
      PendingStays(s, step, k);
    } else if step.SetQuota? {
      SetQuotaIsSeen(s, step.k, step.quota, k);
    } else {
      SettledQuotaStays(s, step, k);
    }
  }

  lemma SettledQuotaStays(s: State, step: Step, k: Key)
    requires Enabled(s, step) && (step.Take? || !Pending(s, k)) && IsActive(s, k) && IsActive(Apply(s, step), k)
    requires !step.Restart? && !step.Get? && !step.WriteQuota? && !step.WriteStatus? && !step.SetQuota?
    requires QuotaGood(s, k) || Pending(s, k) || WillClaim(s, k)
    ensures var t := Apply(s, step); QuotaGood(t, k) || Pending(t, k) || WillClaim(t, k)
  {
  }

  /** Whoever takes the quota away from an active policy raises an event for it. */
  lemma SetQuotaIsSeen(s: State, at: Key, quota: Option<Quota>, k: Key)
    requires IsActive(s, k) && (QuotaGood(s, k) || WillClaim(s, k))
    ensures var t := Apply(s, SetQuota(at, quota)); QuotaGood(t, k) || Pending(t, k) || WillClaim(t, k)
  {
    if at == k && QuotaGood(s, k) {
      assert Owner(k.ns, QuotaAt(s, k)) == {k};
    }
  }

  lemma ClaimedQuota(s: State, acknowledged: bool, k: Key)
    requires Inv(s) && Enabled(s, WriteQuota(acknowledged)) && IsActive(s, k) && !Pending(s, k)
    ensures var t := Apply(s, WriteQuota(acknowledged)); QuotaGood(t, k) || Pending(t, k)
  {
    var t := Apply(s, WriteQuota(acknowledged));
    var target := Key(s.worker.key.ns, s.worker.target);
    if target == k && QuotaAt(t, k) != QuotaAt(s, k) {
      assert Owner(k.ns, QuotaAt(t, k)) == {k};
    }
  }

  lemma ElectionStaysOwed(s: State, step: Step)
    requires Inv(s) && Enabled(s, step) && !step.Take?
    ensures ElectionOwed(Apply(s, step))
  {
    var t := Apply(s, step);
    forall p | p in t.policies && NoneActive(t, p.ns) ensures PendingIn(t, p.ns) || WillActivate(t, p.ns) {
      if step.Restart? || p !in s.policies {
        assert Pending(t, p);
      } else if !NoneActive(s, p.ns) {
        LostActivePending(s, step, p.ns);
      } else if PendingIn(s, p.ns) {
        var q: Key :| q.ns == p.ns && Pending(s, q);
        PendingStays(s, step, q);
      } else {
        PassStaysOwed(s, step, p);
      }
    }
  }

  lemma LostActivePending(s: State, step: Step, ns: string)
    requires Inv(s) && Enabled(s, step) && !NoneActive(s, ns) && NoneActive(Apply(s, step), ns)
    ensures PendingIn(Apply(s, step), ns)
  {
    var a :| IsActive(s, a) && a.ns == ns;
    StepKeepsActive(s, step, a);
    assert Pending(Apply(s, step), a);
  }

  lemma PassStaysOwed(s: State, step: Step, p: Key)
    requires Inv(s) && Enabled(s, step) && !step.Take? && !step.Restart?
    requires p in s.policies && NoneActive(s, p.ns) && WillActivate(s, p.ns) && NoneActive(Apply(s, step), p.ns)
    ensures PendingIn(Apply(s, step), p.ns) || WillActivate(Apply(s, step), p.ns)
  {
    var t := Apply(s, step);
    if t.worker.Idle? {
      assert Pending(t, s.worker.key);
    }
  }

  lemma StepKeepsInv(s: State, step: Step)
    requires Inv(s) && Enabled(s, step)
    ensures Inv(Apply(s, step))
  {
    StepKeepsSafe(s, step);
    VerdictStaysOwed(s, step);
    QuotaStaysOwed(s, step);
    if step.Take? {
      TakeKeepsElectionOwed(s, step.k);
    } else {
      ElectionStaysOwed(s, step);
    }
  }

  lemma {:induction false} RunKeepsInv(s: State, steps: seq<Step>)
    requires Inv(s) && IsRun(s, steps)
    ensures Inv(After(s, steps))
    decreases |steps|
  {
    if steps != [] {
      StepKeepsInv(s, steps[0]);
      RunKeepsInv(Apply(s, steps[0]), steps[1..]);
    }
  }

  // ----- Quiescence -----

  predicate WorksOn(s: State, ns: string) {
    !s.worker.Idle? && s.worker.key.ns == ns
  }

  /** Nothing of the namespace is queued or in flight, whatever goes on elsewhere. */
  ghost predicate QuiescentIn(s: State, ns: string) {
    !WorksOn(s, ns) && !PendingIn(s, ns)
  }

  /** Policy a won its namespace: it alone is active, its quota is in place, all others are marked inactive. */
  ghost predicate Elected(s: State, a: Key) {
    && IsActive(s, a)
    && QuotaGood(s, a)
    && forall p :: p in s.policies && p.ns == a.ns && p != a ==> s.policies[p].ready.Inactive?
  }

  lemma QuiescentInvElected(s: State, k: Key) returns (a: Key)
    requires Inv(s) && QuiescentIn(s, k.ns) && k in s.policies
    ensures a.ns == k.ns && Elected(s, a)
  {
    forall q: Key | q.ns == k.ns ensures !Pending(s, q) {
    }
    a :| IsActive(s, a) && a.ns == k.ns;
  }

  /** After any run that leaves nothing of a namespace queued or in flight, a namespace holding a policy has exactly one
      elected policy. */
  lemma {:induction false} QuiescentMeansElected(s: State, steps: seq<Step>, k: Key) returns (a: Key)
    requires Init(s) && IsRun(s, steps) && QuiescentIn(After(s, steps), k.ns) && k in After(s, steps).policies
    ensures a.ns == k.ns && Elected(After(s, steps), a)
    ensures forall b :: IsActive(After(s, steps), b) && b.ns == k.ns ==> b == a
  {
    InitInv(s);
    RunKeepsInv(s, steps);
    a := QuiescentInvElected(After(s, steps), k);
  }
}
