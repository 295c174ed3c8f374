/** When the users and the API server leave the store alone, the worker brings a namespace to rest within a bounded
    number of steps about it, from any reachable state, including a pass that was already in flight with outdated
    copies, and whatever happens in other namespaces. Measures are taken over a scope: a set of namespaces. */
module PolicyConvergence {
  import opened Keys
  import opened Wrappers
  import opened PolicyProtocol
  import opened PolicySafety
  import opened PolicyQuiescence

  /** The steps of the work queue and of a worker whose API calls do not fail. */
  predicate Quiet(step: Step) {
    match step
    case Deliver(_) => true
    case Take(_) => true
    case List(_) => true
    case Get => true
    case WriteQuota(acknowledged) => acknowledged
    case WriteStatus(acknowledged) => acknowledged
    case _ => false
  }

  /** The steps of the worker within a pass. */
  predicate InPass(step: Step) {
    Quiet(step) && !step.Deliver? && !step.Take?
  }

  ghost predicate AllQuiet(steps: seq<Step>) {
    forall i :: 0 <= i < |steps| ==> Quiet(steps[i])
  }

  /** The namespace a quiet step is about. */
  function About(s: State, step: Step): string {
    if step.Deliver? || step.Take? then step.k.ns
    else if s.worker.Idle? then ""
    else s.worker.key.ns
  }

  ghost function StepsIn(s: State, steps: seq<Step>, scope: set<string>): nat
    requires IsRun(s, steps)
    decreases |steps|
  {
    if steps == [] then 0
    else (if About(s, steps[0]) in scope then 1 else 0) + StepsIn(Apply(s, steps[0]), steps[1..], scope)
  }

  // ----- Quotas and requests -----

  predicate ClaimableBy(quota: Quota, name: string) {
    !quota.controller.Foreign? && (quota.controller.ByPolicy? ==> quota.controller.name == name)
  }

  /** Nothing but policy k itself controls its quota; otherwise claiming it is refused. */
  predicate Claimable(s: State, k: Key) {
    QuotaAt(s, k).Some? ==> ClaimableBy(QuotaAt(s, k).value, k.name)
  }

  predicate PoliciesClaimable(s: State, ns: string) {
    forall p :: p in s.policies && p.ns == ns ==> Claimable(s, p)
  }

  /** Also the quotas named after policies that are gone. */
  ghost predicate AllClaimable(s: State, ns: string) {
    forall k: Key :: k.ns == ns ==> Claimable(s, k)
  }

  predicate Requested(s: State, k: Key) {
    Pending(s, k) || (!s.worker.Idle? && s.worker.key == k)
  }

  /** Whatever policy a pass for k turns to while none is active, it can claim its quota. */
  predicate CanServe(s: State, k: Key) {
    if k in s.policies then Claimable(s, k) else PoliciesClaimable(s, k.ns)
  }

  predicate Working(s: State, scope: set<string>) {
    !s.worker.Idle? && s.worker.key.ns in scope
  }

  /** What the pass in flight read is what the store still holds. */
  ghost predicate UpToDate(s: State) {
    match s.worker
    case Idle => true
    case Started(_) => true
    case Listed(key, items) => IsListing(items, s.policies, key.ns)
    case Decided(key, active, target, copy, quotaDone) =>
      var k := Key(key.ns, target);
      && k in s.policies && s.policies[k] == copy
      && (active.Some? ==> IsActive(s, Key(key.ns, active.value)))
      && (quotaDone ==> QuotaGood(s, k))
  }

  /** The active policies of the scope can claim their quotas; where none is active, every request can be served. A pass
      in flight may be outdated only where no quota at all is in other hands. */
  ghost predicate Promising(s: State, scope: set<string>) {
    && (forall a :: IsActive(s, a) && a.ns in scope ==> Claimable(s, a))
    && (forall k :: Requested(s, k) && k.ns in scope && NoneActive(s, k.ns) ==> CanServe(s, k))
    && (Working(s, scope) ==> PassPromising(s))
  }

  ghost predicate PassPromising(s: State)
    requires !s.worker.Idle?
  {
    && (UpToDate(s) || AllClaimable(s, s.worker.key.ns))
    && (s.worker.Decided? && !s.worker.quotaDone && Wanted(s.worker) == Active ==>
          Claimable(s, Key(s.worker.key.ns, s.worker.target)))
  }

  // ----- The rank -----

  /** The verdict of policy k will not change any more. */
  predicate Settled(s: State, k: Key)
    requires k in s.policies
  {
    match s.policies[k].ready
    case Unset => false
    case Active => true
    case Inactive(winner) => IsActive(s, Key(k.ns, winner))
  }

  function Unsettled(s: State, scope: set<string>): set<Key> {
    set k | k in s.policies && k.ns in scope && !Settled(s, k)
  }

  function Unclaimed(s: State, scope: set<string>): set<Key> {
    set k | k in s.policies && k.ns in scope && !QuotaGood(s, k)
  }

  function Within(keys: set<Key>, scope: set<string>): set<Key> {
    set k | k in keys && k.ns in scope
  }

  function PassLeft(w: Worker): nat {
    match w
    case Idle => 0
    case Started(_) => 5
    case Listed(_, _) => 4
    case Decided(_, _, _, _, false) => 3
    case Decided(_, _, _, _, true) => 2
  }

  ghost function Outdated(s: State): nat {
    if UpToDate(s) then 0
    else if s.worker.Decided? && s.worker.quotaDone then 30
    else 60
  }

  /** The work the store and the queue hold. */
  function Backlog(s: State, scope: set<string>): nat {
    20 * |Unsettled(s, scope)| + 20 * |Unclaimed(s, scope)|
    + 7 * |Within(s.transit, scope)| + 6 * |Within(s.queue, scope)|
  }

  ghost function Rank(s: State, scope: set<string>): nat {
    Backlog(s, scope) + if Working(s, scope) then PassLeft(s.worker) + Outdated(s) else 0
  }

  // ----- Sizes -----

  lemma {:induction false} SubsetSize(a: set<Key>, b: set<Key>)
    requires a <= b
    ensures |a| <= |b|
  {
    if a != {} {
      var x :| x in a;
      SubsetSize(a - {x}, b - {x});
    }
  }

  lemma SmallerSize(a: set<Key>, b: set<Key>, x: Key)
    requires a <= b && x in b && x !in a
    ensures |a| < |b|
  {
    SubsetSize(a, b - {x});
  }

  lemma OneMore(a: set<Key>, b: set<Key>, x: Key)
    requires a <= b + {x}
    ensures |a| <= |b| + 1
  {
    SubsetSize(a, b + {x});
  }

  lemma SameSizes(s: State, t: State, scope: set<string>)
    requires t.policies == s.policies && t.quotas == s.quotas
    ensures Unsettled(t, scope) == Unsettled(s, scope) && Unclaimed(t, scope) == Unclaimed(s, scope)
  {
  }

  // ----- Every quiet step about the scope brings its rank down -----

  lemma DeliverDescends(s: State, k: Key, scope: set<string>)
    requires Enabled(s, Deliver(k)) && k.ns in scope
    ensures Backlog(Apply(s, Deliver(k)), scope) < Backlog(s, scope)
    ensures Rank(Apply(s, Deliver(k)), scope) < Rank(s, scope)
  {
    var t := Apply(s, Deliver(k));
    SameSizes(s, t, scope);
    assert Within(t.transit, scope) == Within(s.transit, scope) - {k};
    OneMore(Within(t.queue, scope), Within(s.queue, scope), k);
  }

  lemma TakeDescends(s: State, k: Key, scope: set<string>)
    requires Enabled(s, Take(k)) && k.ns in scope
    ensures Rank(Apply(s, Take(k)), scope) < Rank(s, scope)
  {
    var t := Apply(s, Take(k));
    SameSizes(s, t, scope);
    assert Within(t.queue, scope) == Within(s.queue, scope) - {k};
  }

  lemma ReadDescends(s: State, step: Step, scope: set<string>)
    requires Enabled(s, step) && (step.List? || step.Get?) && s.worker.key.ns in scope
    ensures Rank(Apply(s, step), scope) < Rank(s, scope)
  {
    var t := Apply(s, step);
    SameSizes(s, t, scope);
  }

  lemma WriteQuotaClaims(s: State, scope: set<string>)
    requires Enabled(s, WriteQuota(true)) && s.worker.key.ns in scope && PassPromising(s)
    ensures var t := Apply(s, WriteQuota(true));
            var k := Key(s.worker.key.ns, s.worker.target);
            && t.worker == s.worker.(quotaDone := true) && t.queue == s.queue && t.policies == s.policies
            && t.transit <= s.transit + {k}
            && (QuotaAt(t, k) == QuotaAt(s, k) ==> t == s.(worker := t.worker))
            && QuotaAt(t, k) == Some(Quota(1, ByPolicy(k.name, s.worker.copy.uid)))
            && forall q :: q != k ==> QuotaAt(t, q) == QuotaAt(s, q)
  {
  }

  lemma WriteQuotaSizes(s: State, scope: set<string>)
    requires Enabled(s, WriteQuota(true)) && s.worker.key.ns in scope && PassPromising(s)
    ensures var t := Apply(s, WriteQuota(true));
            var changed := t != s.(worker := t.worker);
            && Unsettled(t, scope) == Unsettled(s, scope)
            && |Within(t.transit, scope)| <= |Within(s.transit, scope)| + (if changed then 1 else 0)
            && |Unclaimed(t, scope)| <= |Unclaimed(s, scope)| + (if changed then 1 else 0)
            && (changed && UpToDate(s) ==> |Unclaimed(t, scope)| < |Unclaimed(s, scope)|)
  {
    var t := Apply(s, WriteQuota(true));
    var k := Key(s.worker.key.ns, s.worker.target);
    WriteQuotaClaims(s, scope);
    assert Unsettled(t, scope) == Unsettled(s, scope);
    if t == s.(worker := t.worker) {
      SameSizes(s, t, scope);
      return;
    }
    OneMore(Within(t.transit, scope), Within(s.transit, scope), k);
    OneMore(Unclaimed(t, scope), Unclaimed(s, scope), k);
    if UpToDate(s) {
      assert k in Unclaimed(s, scope) && k !in Unclaimed(t, scope);
      SmallerSize(Unclaimed(t, scope), Unclaimed(s, scope), k);
    }
  }

  lemma WriteQuotaStaysUpToDate(s: State, scope: set<string>)
    requires Enabled(s, WriteQuota(true)) && s.worker.key.ns in scope && PassPromising(s) && UpToDate(s)
    ensures UpToDate(Apply(s, WriteQuota(true)))
  {
    WriteQuotaClaims(s, scope);
  }

  lemma WriteQuotaDescends(s: State, scope: set<string>)
    requires Enabled(s, WriteQuota(true)) && s.worker.key.ns in scope && PassPromising(s)
    ensures Rank(Apply(s, WriteQuota(true)), scope) < Rank(s, scope)
  {
    WriteQuotaClaims(s, scope);
    WriteQuotaSizes(s, scope);
    if UpToDate(s) {
      WriteQuotaStaysUpToDate(s, scope);
    }
  }

  lemma WriteStatusKeepsSettled(s: State, q: Key)
    requires Inv(s) && Enabled(s, WriteStatus(true)) && q in s.policies && Settled(s, q)
    ensures Settled(Apply(s, WriteStatus(true)), q)
  {
    var winner := if s.policies[q].ready.Inactive? then Key(q.ns, s.policies[q].ready.winner) else q;
    StepKeepsActive(s, WriteStatus(true), winner);
    assert s.worker.active.Some? && IsActive(s, winner) && winner.ns == s.worker.key.ns ==>
        winner.name == s.worker.active.value;
  }

  lemma WriteStatusSettles(s: State, scope: set<string>)
    requires Inv(s) && Enabled(s, WriteStatus(true)) && UpToDate(s) && s.worker.key.ns in scope
    requires Apply(s, WriteStatus(true)).transit != s.transit
    ensures var k := Key(s.worker.key.ns, s.worker.target);
            k in Unsettled(s, scope) && k !in Unsettled(Apply(s, WriteStatus(true)), scope)
  {
    var t := Apply(s, WriteStatus(true));
    var k := Key(s.worker.key.ns, s.worker.target);
    if s.worker.active.Some? {
      var a := Key(k.ns, s.worker.active.value);
      assert IsActive(s, a);
      StepKeepsActive(s, WriteStatus(true), a);
    }
  }

  lemma WriteStatusUnsettlesNone(s: State, scope: set<string>)
    requires Inv(s) && Enabled(s, WriteStatus(true))
    ensures Unsettled(Apply(s, WriteStatus(true)), scope) <= Unsettled(s, scope)
  {
    var t := Apply(s, WriteStatus(true));
    forall q | q in Unsettled(t, scope) ensures q in Unsettled(s, scope) {
      if Settled(s, q) {
        WriteStatusKeepsSettled(s, q);
      }
    }
  }

  lemma WriteStatusAdds(s: State, scope: set<string>)
    requires Enabled(s, WriteStatus(true))
    ensures var t := Apply(s, WriteStatus(true));
            && Unclaimed(t, scope) == Unclaimed(s, scope)
            && t.queue == s.queue && t.worker.Idle?
            && exists k :: t.transit <= s.transit + {k}
  {
    var t := Apply(s, WriteStatus(true));
    var k := Key(s.worker.key.ns, s.worker.target);
    assert t.transit <= s.transit + {k} || t.transit <= s.transit + {s.worker.key};
  }

  lemma WriteStatusDescends(s: State, scope: set<string>)
    requires Inv(s) && Enabled(s, WriteStatus(true)) && s.worker.key.ns in scope
    ensures Rank(Apply(s, WriteStatus(true)), scope) < Rank(s, scope)
  {
    var t := Apply(s, WriteStatus(true));
    WriteStatusUnsettlesNone(s, scope);
    SubsetSize(Unsettled(t, scope), Unsettled(s, scope));
    WriteStatusAdds(s, scope);
    var k :| t.transit <= s.transit + {k};
    OneMore(Within(t.transit, scope), Within(s.transit, scope), k);
    if UpToDate(s) && t.transit != s.transit {
      WriteStatusSettles(s, scope);
      SmallerSize(Unsettled(t, scope), Unsettled(s, scope), Key(s.worker.key.ns, s.worker.target));
    }
  }

  lemma QuietDescends(s: State, step: Step, scope: set<string>)
    requires Inv(s) && Promising(s, scope) && Enabled(s, step) && Quiet(step) && About(s, step) in scope
    ensures Rank(Apply(s, step), scope) < Rank(s, scope)
  {
    match step
    case Deliver(k) => DeliverDescends(s, k, scope);
    case Take(k) => TakeDescends(s, k, scope);
    case List(_) => ReadDescends(s, step, scope);
    case Get => ReadDescends(s, step, scope);
    case WriteQuota(_) => WriteQuotaDescends(s, scope);
    case WriteStatus(_) => WriteStatusDescends(s, scope);
  }

  // ----- The rest leaves the rank alone -----

  lemma ElsewhereKeepsRank(s: State, step: Step, scope: set<string>)
    requires Enabled(s, step) && Quiet(step) && About(s, step) !in scope
    ensures Backlog(Apply(s, step), scope) == Backlog(s, scope)
    ensures Rank(Apply(s, step), scope) == Rank(s, scope)
  {
    ElsewhereKeepsBacklog(s, step, scope);
    ElsewhereKeeps(s, step, scope);
    if Working(s, scope) {
      assert Apply(s, step).policies == s.policies && Apply(s, step).quotas == s.quotas;
    }
  }

  lemma ElsewhereKeepsBacklog(s: State, step: Step, scope: set<string>)
    requires Enabled(s, step) && Quiet(step) && About(s, step) !in scope
    ensures Backlog(Apply(s, step), scope) == Backlog(s, scope)
  {
    var t := Apply(s, step);
    ElsewhereKeeps(s, step, scope);
    assert Unsettled(t, scope) == Unsettled(s, scope);
    assert Unclaimed(t, scope) == Unclaimed(s, scope);
    assert Within(t.transit, scope) == Within(s.transit, scope) && Within(t.queue, scope) == Within(s.queue, scope);
  }

  /** A quiet step about another namespace touches nothing of the scope. */
  lemma ElsewhereKeeps(s: State, step: Step, scope: set<string>)
    requires Enabled(s, step) && Quiet(step) && About(s, step) !in scope
    ensures var t := Apply(s, step);
            && t.policies.Keys == s.policies.Keys
            && (forall k: Key :: k.ns in scope ==>
                                   && (k in s.policies ==> t.policies[k] == s.policies[k])
                                   && QuotaAt(t, k) == QuotaAt(s, k)
                                   && (k in t.transit <==> k in s.transit) && (k in t.queue <==> k in s.queue))
            && (Working(t, scope) || Working(s, scope) ==> t.worker == s.worker)
  {
  }

  // ----- A promising scope stays promising -----

  lemma ElsewhereKeepsPromising(s: State, step: Step, scope: set<string>)
    requires Promising(s, scope) && Enabled(s, step) && Quiet(step) && About(s, step) !in scope
    ensures Promising(Apply(s, step), scope)
  {
    var t := Apply(s, step);
    ElsewhereKeeps(s, step, scope);
    forall k: Key | k.ns in scope
      ensures (IsActive(t, k) <==> IsActive(s, k)) && (Claimable(t, k) <==> Claimable(s, k))
      ensures Requested(t, k) ==> Requested(s, k)
    {
    }
    forall k | Requested(t, k) && k.ns in scope && NoneActive(t, k.ns) ensures CanServe(t, k) {
      assert NoneActive(s, k.ns);
      assert CanServe(s, k);
    }
    if Working(t, scope) {
      assert t.policies == s.policies && t.quotas == s.quotas && t.worker == s.worker;
    }
  }

  /** A step that only moves requests leaves them served as before. */
  lemma MovesKeepServing(s: State, t: State, scope: set<string>)
    requires Promising(s, scope) && t.policies == s.policies && t.quotas == s.quotas
    requires forall k :: Requested(t, k) ==> Requested(s, k)
    requires Working(t, scope) ==> PassPromising(t)
    ensures Promising(t, scope)
  {
    forall k | Requested(t, k) && k.ns in scope && NoneActive(t, k.ns) ensures CanServe(t, k) {
      assert NoneActive(s, k.ns) && Requested(s, k);
      assert CanServe(s, k);
    }
  }

  lemma QueueKeepsPromising(s: State, step: Step, scope: set<string>)
    requires Promising(s, scope) && Enabled(s, step) && (step.Deliver? || step.Take?)
    ensures Promising(Apply(s, step), scope)
  {
    MovesKeepServing(s, Apply(s, step), scope);
  }

  lemma ListKeepsPromising(s: State, items: seq<Item>, scope: set<string>)
    requires Promising(s, scope) && Enabled(s, List(items))
    ensures Promising(Apply(s, List(items)), scope)
  {
    MovesKeepServing(s, Apply(s, List(items)), scope);
  }

  /** What the pass is about to claim, it can claim. */
  lemma GetPromising(s: State, scope: set<string>)
    requires Safe(s) && Promising(s, scope) && Enabled(s, Get) && s.worker.key.ns in scope
    ensures var w := Apply(s, Get).worker;
            w.Decided? && Wanted(w) == Active ==> Claimable(s, Key(w.key.ns, w.target))
  {
    var w := Apply(s, Get).worker;
    var key := s.worker.key;
    if w.Decided? && Wanted(w) == Active {
      if NoneActive(s, key.ns) {
        assert CanServe(s, key);
      } else {
        var a :| IsActive(s, a) && a.ns == key.ns;
        assert a == Key(key.ns, w.target);
      }
    }
  }

  lemma GetStaysUpToDate(s: State)
    requires Enabled(s, Get) && UpToDate(s)
    ensures UpToDate(Apply(s, Get))
  {
    var items := s.worker.items;
    var active := GetActive(items);
    if active.Some? {
      var i :| 0 <= i < |items| && items[i].name == active.value && items[i].policy.ready == Active;
      assert IsActive(s, Key(s.worker.key.ns, items[i].name));
    }
  }

  lemma GetMoves(s: State)
    requires Enabled(s, Get)
    ensures var t := Apply(s, Get);
            && t == s.(worker := t.worker)
            && (t.worker.Idle? || (t.worker.Decided? && t.worker.key == s.worker.key))
            && forall k :: Requested(t, k) ==> Requested(s, k)
  {
  }

  lemma GetKeepsPromising(s: State, scope: set<string>)
    requires Safe(s) && Promising(s, scope) && Enabled(s, Get) && s.worker.key.ns in scope
    ensures Promising(Apply(s, Get), scope)
  {
    GetPromising(s, scope);
    GetMoves(s);
    if UpToDate(s) {
      GetStaysUpToDate(s);
    }
    MovesKeepServing(s, Apply(s, Get), scope);
  }

  lemma ClaimKeepsClaimable(s: State, scope: set<string>, k: Key)
    requires Enabled(s, WriteQuota(true)) && s.worker.key.ns in scope && PassPromising(s)
    ensures Claimable(s, k) ==> Claimable(Apply(s, WriteQuota(true)), k)
  {
    WriteQuotaClaims(s, scope);
  }

  lemma WriteQuotaKeepsPromising(s: State, scope: set<string>)
    requires Promising(s, scope) && Enabled(s, WriteQuota(true)) && s.worker.key.ns in scope
    ensures Promising(Apply(s, WriteQuota(true)), scope)
  {
    var t := Apply(s, WriteQuota(true));
    var target := Key(s.worker.key.ns, s.worker.target);
    WriteQuotaClaims(s, scope);
    forall k ensures Claimable(s, k) ==> Claimable(t, k) {
      ClaimKeepsClaimable(s, scope, k);
    }
    forall k | Requested(t, k) && k.ns in scope && NoneActive(t, k.ns) ensures CanServe(t, k) {
      assert NoneActive(s, k.ns);
      if Requested(s, k) {
        assert CanServe(s, k);
      } else {
        assert k == target;
      }
    }
    if UpToDate(s) {
      WriteQuotaStaysUpToDate(s, scope);
    }
  }

  /** A fresh pass writes its verdict, and its namespace has an active policy afterwards. */
  lemma FreshWriteLeavesActive(s: State)
    requires Safe(s) && Enabled(s, WriteStatus(true)) && UpToDate(s)
    ensures !NoneActive(Apply(s, WriteStatus(true)), s.worker.key.ns)
    ensures forall a :: IsActive(Apply(s, WriteStatus(true)), a) && !IsActive(s, a) ==> QuotaGood(s, a)
  {
    var t := Apply(s, WriteStatus(true));
    if Wanted(s.worker) == Active {
      assert IsActive(t, Key(s.worker.key.ns, s.worker.target));
    } else {
      var a := Key(s.worker.key.ns, s.worker.active.value);
      StepKeepsActive(s, WriteStatus(true), a);
      assert IsActive(t, a);
    }
  }

  lemma WriteStatusKeepsPromising(s: State, scope: set<string>)
    requires Safe(s) && Promising(s, scope) && Enabled(s, WriteStatus(true)) && s.worker.key.ns in scope
    ensures Promising(Apply(s, WriteStatus(true)), scope)
  {
    var t := Apply(s, WriteStatus(true));
    var ns := s.worker.key.ns;
    assert t.quotas == s.quotas && t.policies.Keys == s.policies.Keys;
    assert forall k :: Claimable(t, k) <==> Claimable(s, k);
    if UpToDate(s) {
      FreshWriteLeavesActive(s);
    } else {
      assert AllClaimable(s, ns);
    }
    forall k | Requested(t, k) && k.ns in scope && NoneActive(t, k.ns) ensures CanServe(t, k) {
      if k.ns != ns {
        assert Requested(s, k) && NoneActive(s, k.ns);
        assert CanServe(s, k);
      }
    }
  }

  lemma QuietKeepsPromising(s: State, step: Step, scope: set<string>)
    requires Inv(s) && Promising(s, scope) && Enabled(s, step) && Quiet(step)
    ensures Promising(Apply(s, step), scope)
  {
    if About(s, step) !in scope {
      ElsewhereKeepsPromising(s, step, scope);
    } else {
      match step
      case Deliver(_) => QueueKeepsPromising(s, step, scope);
      case Take(_) => QueueKeepsPromising(s, step, scope);
      case List(items) => ListKeepsPromising(s, items, scope);
      case Get => GetKeepsPromising(s, scope);
      case WriteQuota(_) => WriteQuotaKeepsPromising(s, scope);
      case WriteStatus(_) => WriteStatusKeepsPromising(s, scope);
    }
  }

  // ----- Main results -----

  /** A quiet run never has more steps about a promising scope than the rank the scope starts with. */
  lemma {:induction false} QuietRunsAreShort(s: State, steps: seq<Step>, scope: set<string>)
    requires Inv(s) && Promising(s, scope) && IsRun(s, steps) && AllQuiet(steps)
    ensures StepsIn(s, steps, scope) + Rank(After(s, steps), scope) <= Rank(s, scope)
    ensures Promising(After(s, steps), scope)
    decreases |steps|
  {
    if steps != [] {
      StepKeepsInv(s, steps[0]);
      QuietKeepsPromising(s, steps[0], scope);
      if About(s, steps[0]) in scope {
        QuietDescends(s, steps[0], scope);
      } else {
        ElsewhereKeepsRank(s, steps[0], scope);
      }
      QuietRunsAreShort(Apply(s, steps[0]), steps[1..], scope);
    }
  }

  /** The namespaces with anything queued or in flight. */
  function Busy(s: State): set<string> {
    (set k | k in s.transit :: k.ns) + (set k | k in s.queue :: k.ns) + if s.worker.Idle? then {} else {s.worker.key.ns}
  }

  lemma StepStaysBusy(s: State, step: Step)
    requires Enabled(s, step) && Quiet(step)
    ensures About(s, step) in Busy(s) && Busy(Apply(s, step)) <= Busy(s)
  {
    var t := Apply(s, step);
    forall ns | ns in Busy(t) ensures ns in Busy(s) {
      if ns != About(s, step) {
        ElsewhereKeeps(s, step, {ns});
      }
    }
  }

  lemma {:induction false} AllWithinBusy(s: State, steps: seq<Step>, scope: set<string>)
    requires IsRun(s, steps) && AllQuiet(steps) && Busy(s) <= scope
    ensures StepsIn(s, steps, scope) == |steps|
    decreases |steps|
  {
    if steps != [] {
      StepStaysBusy(s, steps[0]);
      AllWithinBusy(Apply(s, steps[0]), steps[1..], scope);
    }
  }

  /** When all busy namespaces are promising, the whole operator comes to rest. */
  lemma WholeRunsAreShort(s: State, steps: seq<Step>)
    requires Inv(s) && Promising(s, Busy(s)) && IsRun(s, steps) && AllQuiet(steps)
    ensures |steps| <= Rank(s, Busy(s))
  {
    QuietRunsAreShort(s, steps, Busy(s));
    AllWithinBusy(s, steps, Busy(s));
  }

  /** A scope none of whose quotas is in other hands is promising, whatever the pass in flight has read. */
  lemma ClaimableIsPromising(s: State, scope: set<string>)
    requires forall k: Key :: k.ns in scope ==> Claimable(s, k)
    ensures Promising(s, scope)
  {
  }

  lemma OneMoreListed(policies: map<Key, Policy>, k: Key, rest: seq<Item>)
    requires k in policies && IsListing(rest, policies - {k}, k.ns)
    ensures IsListing([Item(k.name, policies[k])] + rest, policies, k.ns)
  {
    var items := [Item(k.name, policies[k])] + rest;
    forall p | p in policies && p.ns == k.ns ensures exists i :: 0 <= i < |items| && items[i].name == p.name {
      if p == k {
        assert items[0].name == p.name;
      } else {
        var i :| 0 <= i < |rest| && rest[i].name == p.name;
        assert items[i + 1].name == p.name;
      }
    }
    forall i | 0 <= i < |rest| ensures Key(k.ns, rest[i].name) in policies - {k} {
    }
  }

  lemma {:induction false} ListingExists(policies: map<Key, Policy>, ns: string) returns (items: seq<Item>)
    ensures IsListing(items, policies, ns)
    decreases |policies|
  {
    if k :| k in policies && k.ns == ns {
      var smaller := policies - {k};
      assert policies.Keys == smaller.Keys + {k};
      var rest := ListingExists(smaller, ns);
      items := [Item(k.name, policies[k])] + rest;
      OneMoreListed(policies, k, rest);
    } else {
      items := [];
    }
  }

  /** Until a namespace is at rest, some quiet step about it can be taken, unless the worker is busy elsewhere and can
      go on there. */
  lemma QuietStepExists(s: State, ns: string) returns (step: Step)
    requires !QuiescentIn(s, ns)
    ensures Quiet(step) && Enabled(s, step)
    ensures About(s, step) == if s.worker.Idle? then ns else s.worker.key.ns
    ensures s.worker.Idle? || InPass(step)
  {
    match s.worker
    case Idle =>
      var k: Key :| k.ns == ns && Pending(s, k);
      step := if k in s.queue then Take(k) else Deliver(k);
    case Started(key) =>
      var items := ListingExists(s.policies, key.ns);
      step := List(items);
    case Listed(_, _) => step := Get;
    case Decided(_, _, _, _, quotaDone) =>
      step := if !quotaDone && Wanted(s.worker) == Active then WriteQuota(true) else WriteStatus(true);
  }

  /** Left alone, a promising namespace elects, whatever goes on elsewhere: a quiet run takes a bounded number of steps
      about it, and once none is left to take, the worker not being busy elsewhere, exactly one policy is elected. */
  lemma {:induction false} QuietRunElects(s: State, before: seq<Step>, quiet: seq<Step>, k: Key) returns (a: Key)
    requires Init(s) && IsRun(s, before) && Promising(After(s, before), {k.ns})
    requires IsRun(After(s, before), quiet) && AllQuiet(quiet)
    requires var t := After(After(s, before), quiet);
             && k in t.policies
             && (t.worker.Idle? || t.worker.key.ns == k.ns)
             && forall step :: Quiet(step) && Enabled(t, step) ==> About(t, step) != k.ns
    ensures StepsIn(After(s, before), quiet, {k.ns}) <= Rank(After(s, before), {k.ns})
    ensures a.ns == k.ns && Elected(After(After(s, before), quiet), a)
  {
    InitInv(s);
    RunKeepsInv(s, before);
    var m := After(s, before);
    QuietRunsAreShort(m, quiet, {k.ns});
    RunKeepsInv(m, quiet);
    var t := After(m, quiet);
    if !QuiescentIn(t, k.ns) {
      var step := QuietStepExists(t, k.ns);
      assert false;
    }
    a := QuiescentInvElected(t, k);
  }

  lemma RunStarts(s: State, step: Step, rest: seq<Step>)
    requires Enabled(s, step) && IsRun(Apply(s, step), rest)
    ensures IsRun(s, [step] + rest) && After(s, [step] + rest) == After(Apply(s, step), rest)
    ensures forall scope :: StepsIn(s, [step] + rest, scope)
                            == (if About(s, step) in scope then 1 else 0) + StepsIn(Apply(s, step), rest, scope)
  {
    assert ([step] + rest)[1..] == rest;
  }

  /** A promising namespace can be brought to rest from any reachable state. */
  lemma {:induction false} RestReached(s: State, ns: string) returns (steps: seq<Step>)
    requires Inv(s) && Promising(s, {ns})
    ensures IsRun(s, steps) && AllQuiet(steps) && QuiescentIn(After(s, steps), ns)
    decreases Rank(s, {ns}), PassLeft(s.worker)
  {
    if QuiescentIn(s, ns) {
      steps := [];
    } else {
      var step := QuietStepExists(s, ns);
      StepKeepsInv(s, step);
      QuietKeepsPromising(s, step, {ns});
      if About(s, step) == ns {
        QuietDescends(s, step, {ns});
      } else {
        ElsewhereKeepsRank(s, step, {ns});
        PassGoesOn(s, step);
      }
      var rest := RestReached(Apply(s, step), ns);
      RunStarts(s, step, rest);
      steps := [step] + rest;
    }
  }

  lemma PassGoesOn(s: State, step: Step)
    requires Enabled(s, step) && InPass(step)
    ensures PassLeft(Apply(s, step).worker) < PassLeft(s.worker)
    ensures Apply(s, step).worker.Idle? || Apply(s, step).worker.key == s.worker.key
  {
  }
}
