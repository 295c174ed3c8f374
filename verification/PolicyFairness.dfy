/** Schedules that leave no request of a namespace waiting: the exact condition under which serving every pending
    request once is enough, and states that tell the three conditions apart. */
module PolicyFairness {
  import opened Keys
  import opened Wrappers
  import opened PolicyProtocol
  import opened PolicySafety
  import opened PolicyQuiescence
  import opened PolicyConvergence
  import opened PolicySweep
  import opened PolicyLiveness

  /** An undisturbed run that takes every request of ns that was pending at its start, and ends between two passes. */
  ghost predicate Serves(s: State, steps: seq<Step>, ns: string) {
    && IsRun(s, steps) && AllQuiet(steps) && After(s, steps).worker.Idle?
    && forall k: Key :: k.ns == ns && Pending(s, k) ==> Take(k) in steps
  }

  ghost predicate HasPolicy(s: State, ns: string) {
    exists p :: p in s.policies && p.ns == ns
  }

  /** The active policy can claim its quota, or none is active and some pending request can be served however the list
      is answered, or the namespace has no policy. */
  ghost predicate Servable(s: State, ns: string) {
    && (forall a :: IsActive(s, a) && a.ns == ns ==> Claimable(s, a))
    && (NoneActive(s, ns) && HasPolicy(s, ns) ==> exists k: Key :: k.ns == ns && Pending(s, k) && CanServe(s, k))
  }

  // ----- A request that can be served elects once it is taken -----

  ghost predicate Won(s: State, ns: string) {
    exists a :: IsActive(s, a) && a.ns == ns && Claimable(s, a)
  }

  ghost predicate FreshIn(s: State, ns: string) {
    WorksOn(s, ns) ==> UpToDate(s)
  }

  /** No policy of the namespace is active and request k can be served. */
  ghost predicate Open(s: State, k: Key) {
    NoneActive(s, k.ns) && HasPolicy(s, k.ns) && CanServe(s, k) && FreshIn(s, k.ns)
  }

  ghost predicate Awaiting(s: State, k: Key) {
    Open(s, k) && Pending(s, k)
  }

  ghost predicate InHand(s: State, k: Key) {
    && Open(s, k) && !s.worker.Idle? && s.worker.key == k
    && (s.worker.Decided? ==> Claimable(s, Key(k.ns, s.worker.target)))
  }

  lemma QuietKeepsClaimable(s: State, step: Step, k: Key)
    requires Enabled(s, step) && Quiet(step)
    ensures Claimable(s, k) ==> Claimable(Apply(s, step), k)
    ensures Apply(s, step).policies.Keys == s.policies.Keys
  {
  }

  lemma WonStays(s: State, step: Step, ns: string)
    requires Safe(s) && Won(s, ns) && Enabled(s, step) && Quiet(step)
    ensures Won(Apply(s, step), ns)
  {
    var a :| IsActive(s, a) && a.ns == ns && Claimable(s, a);
    StepKeepsActive(s, step, a);
    QuietKeepsClaimable(s, step, a);
    UidsStay(s, step, a);
    assert IsActive(Apply(s, step), a);
  }

  lemma UidsStay(s: State, step: Step, k: Key)
    requires Enabled(s, step) && Quiet(step) && k in s.policies
    ensures SameObject(Apply(s, step), k, s.policies[k].uid)
  {
  }

  lemma CanServeStays(s: State, step: Step, k: Key)
    requires Enabled(s, step) && Quiet(step) && CanServe(s, k)
    ensures CanServe(Apply(s, step), k)
  {
    forall q ensures Claimable(s, q) ==> Claimable(Apply(s, step), q) {
      QuietKeepsClaimable(s, step, q);
    }
    QuietKeepsClaimable(s, step, k);
  }

  lemma HasPolicyStays(s: State, step: Step, ns: string)
    requires Enabled(s, step) && Quiet(step) && HasPolicy(s, ns)
    ensures HasPolicy(Apply(s, step), ns)
  {
    var p :| p in s.policies && p.ns == ns;
    QuietKeepsClaimable(s, step, p);
    assert p in Apply(s, step).policies;
  }

  /** A quiet step that does not write the verdict of a pass about the namespace leaves it as inactive as it was. */
  lemma NoVerdictNoneActive(s: State, step: Step, ns: string)
    requires Enabled(s, step) && Quiet(step) && NoneActive(s, ns)
    requires !(step.WriteStatus? && s.worker.key.ns == ns)
    ensures NoneActive(Apply(s, step), ns)
  {
  }

  lemma FreshStays(s: State, step: Step, ns: string)
    requires FreshIn(s, ns) && Enabled(s, step) && Quiet(step)
    ensures FreshIn(Apply(s, step), ns)
  {
    var t := Apply(s, step);
    if WorksOn(t, ns) && WorksOn(s, ns) && step.Get? {
      GetStaysUpToDate(s);
    }
  }

  lemma VerdictWins(s: State, ns: string)
    requires Safe(s) && Enabled(s, WriteStatus(true)) && s.worker.key.ns == ns && UpToDate(s) && NoneActive(s, ns)
    ensures Won(Apply(s, WriteStatus(true)), ns)
  {
    var t := Apply(s, WriteStatus(true));
    FreshWriteLeavesActive(s);
    var a :| IsActive(t, a) && a.ns == ns;
    assert QuotaGood(s, a);
    assert Claimable(t, a);
  }

  lemma OpenStays(s: State, step: Step, k: Key)
    requires Safe(s) && Open(s, k) && Enabled(s, step) && Quiet(step)
    ensures Won(Apply(s, step), k.ns) || Open(Apply(s, step), k)
  {
    if step.WriteStatus? && s.worker.key.ns == k.ns {
      VerdictWins(s, k.ns);
    } else {
      NoVerdictNoneActive(s, step, k.ns);
      HasPolicyStays(s, step, k.ns);
      CanServeStays(s, step, k);
      FreshStays(s, step, k.ns);
    }
  }

  lemma AwaitStep(s: State, step: Step, k: Key)
    requires Safe(s) && Awaiting(s, k) && Enabled(s, step) && Quiet(step)
    ensures var t := Apply(s, step); Won(t, k.ns) || if step == Take(k) then InHand(t, k) else Awaiting(t, k)
  {
    OpenStays(s, step, k);
  }

  lemma HandTargetClaimable(s: State, step: Step, k: Key)
    requires InHand(s, k) && Enabled(s, step) && Quiet(step) && !step.WriteStatus?
    ensures var w := Apply(s, step).worker;
            && !w.Idle? && w.key == k
            && (w.Decided? ==> Claimable(Apply(s, step), Key(k.ns, w.target)))
  {
    var t := Apply(s, step);
    if step.Get? {
      HandGet(s, k);
    } else if s.worker.Decided? {
      QuietKeepsClaimable(s, step, Key(k.ns, s.worker.target));
    }
  }

  lemma HandGet(s: State, k: Key)
    requires InHand(s, k) && Enabled(s, Get)
    ensures var w := Apply(s, Get).worker; w.Decided? && w.key == k && Claimable(s, Key(k.ns, w.target))
  {
    var items := s.worker.items;
    forall i | 0 <= i < |items| ensures items[i].policy.ready != Active {
      assert !IsActive(s, Key(k.ns, items[i].name));
    }
    var p :| p in s.policies && p.ns == k.ns;
    assert |items| > 0;
    assert Key(k.ns, items[0].name) in s.policies;
  }

  lemma HandStep(s: State, step: Step, k: Key)
    requires Safe(s) && InHand(s, k) && Enabled(s, step) && Quiet(step)
    ensures Won(Apply(s, step), k.ns) || InHand(Apply(s, step), k)
  {
    if step.WriteStatus? {
      VerdictWins(s, k.ns);
    } else {
      OpenStays(s, step, k);
      HandTargetClaimable(s, step, k);
    }
  }

  lemma {:induction false} ServedWins(s: State, steps: seq<Step>, k: Key)
    requires Inv(s) && IsRun(s, steps) && AllQuiet(steps) && After(s, steps).worker.Idle?
    requires Won(s, k.ns) || InHand(s, k) || (Awaiting(s, k) && Take(k) in steps)
    ensures Won(After(s, steps), k.ns)
    decreases |steps|
  {
    if steps != [] {
      StepKeepsInv(s, steps[0]);
      if Won(s, k.ns) {
        WonStays(s, steps[0], k.ns);
      } else if InHand(s, k) {
        HandStep(s, steps[0], k);
      } else {
        AwaitStep(s, steps[0], k);
        assert forall step :: step in steps ==> step == steps[0] || step in steps[1..];
      }
      ServedWins(Apply(s, steps[0]), steps[1..], k);
    }
  }

  lemma WonIsPromising(s: State, ns: string)
    requires AtMostOneActive(s) && s.worker.Idle? && Won(s, ns)
    ensures Promising(s, {ns})
  {
    var a :| IsActive(s, a) && a.ns == ns && Claimable(s, a);
    ActiveIsPromising(s, a);
  }

  lemma ServableServed(s: State, steps: seq<Step>, ns: string)
    requires Inv(s) && !WorksOn(s, ns) && Servable(s, ns) && Serves(s, steps, ns)
    ensures Promising(After(s, steps), {ns})
  {
    RunKeepsInv(s, steps);
    if !HasPolicy(s, ns) {
      assert Promising(s, {ns});
      QuietRunsAreShort(s, steps, {ns});
    } else if NoneActive(s, ns) {
      var k: Key :| k.ns == ns && Pending(s, k) && CanServe(s, k);
      ServedWins(s, steps, k);
      WonIsPromising(After(s, steps), ns);
    } else {
      var a :| IsActive(s, a) && a.ns == ns;
      assert Won(s, ns);
      ServedWins(s, steps, a);
      WonIsPromising(After(s, steps), ns);
    }
  }

  // ----- Otherwise serving everybody changes nothing that matters -----

  /** The active policy cannot claim its quota, or none is active and no pending request need be served. */
  ghost predicate Unservable(s: State, ns: string) {
    || (exists a :: IsActive(s, a) && a.ns == ns && !Claimable(s, a))
    || (NoneActive(s, ns) && HasPolicy(s, ns) && forall k: Key :: k.ns == ns && Pending(s, k) ==> !CanServe(s, k))
  }

  lemma UnservableIs(s: State, ns: string)
    ensures Unservable(s, ns) <==> !Servable(s, ns)
  {
  }

  lemma UnservableIsNotPromising(s: State, ns: string)
    requires Inv(s) && s.worker.Idle? && Unservable(s, ns)
    ensures !Promising(s, {ns})
  {
    if NoneActive(s, ns) && HasPolicy(s, ns) {
      var p :| p in s.policies && p.ns == ns;
      assert PendingIn(s, p.ns);
      var k: Key :| k.ns == ns && Pending(s, k);
      assert Requested(s, k) && !CanServe(s, k);
    }
  }

  lemma RefusedRequest(s: State, k: Key) returns (steps: seq<Step>)
    requires Inv(s) && s.worker.Idle? && Pending(s, k) && NoneActive(s, k.ns) && !CanServe(s, k)
    ensures IsRun(s, steps) && AllQuiet(steps) && Take(k) in steps
    ensures var t := After(s, steps);
            && t.policies == s.policies && t.quotas == s.quotas && t.worker.Idle?
            && forall q :: Pending(t, q) <==> Pending(s, q)
  {
    SomeActiveIs(s, k.ns);
    var order := AdverseOrder(s, k);
    steps := ServeRun(s, k, order);
    RefusedPassLeaves(s, k, order);
  }

  lemma UnclaimedRequest(s: State, k: Key, a: Key) returns (steps: seq<Step>)
    requires Inv(s) && s.worker.Idle? && Pending(s, k) && IsActive(s, a) && a.ns == k.ns && !Claimable(s, a)
    ensures IsRun(s, steps) && AllQuiet(steps) && Take(k) in steps
    ensures var t := After(s, steps);
            && t.worker.Idle? && IsActive(t, a) && !Claimable(t, a)
            && forall q :: q != k && Pending(s, q) ==> Pending(t, q)
  {
    var order := OrderWith(s, a);
    steps := ServeRun(s, k, order);
    UnclaimedPass(s, k, a, order);
    PassKeepsPending(Taken(s, k), k, order);
  }

  lemma UnclaimedPass(s: State, k: Key, a: Key, order: seq<string>)
    requires AtMostOneActive(s) && ListOrder(order, s, k.ns) && IsActive(s, a) && a.ns == k.ns && !Claimable(s, a)
    ensures var t := Pass(Taken(s, k), k, order); IsActive(t, a) && !Claimable(t, a)
  {
    TakenAlike(s, k, order);
    PassWrites(Taken(s, k), k, order);
    ListingFindsActive(Items(order, s, k.ns), s, a);
  }

  lemma ServeOne(s: State, k: Key) returns (steps: seq<Step>)
    requires Inv(s) && s.worker.Idle? && Unservable(s, k.ns) && Pending(s, k)
    ensures IsRun(s, steps) && AllQuiet(steps) && Take(k) in steps
    ensures var t := After(s, steps);
            && Inv(t) && t.worker.Idle? && Unservable(t, k.ns)
            && forall q :: q != k && Pending(s, q) ==> Pending(t, q)
  {
    if a :| IsActive(s, a) && a.ns == k.ns && !Claimable(s, a) {
      steps := UnclaimedRequest(s, k, a);
    } else {
      steps := RefusedRequest(s, k);
      StaysUnservable(s, After(s, steps), k.ns);
    }
    RunKeepsInv(s, steps);
  }

  lemma StaysUnservable(s: State, t: State, ns: string)
    requires Unservable(s, ns) && t.policies == s.policies && t.quotas == s.quotas
    requires forall q :: Pending(t, q) <==> Pending(s, q)
    ensures Unservable(t, ns)
  {
    forall k: Key | k.ns == ns ensures CanServe(t, k) <==> CanServe(s, k) {
    }
    if HasPolicy(s, ns) {
      var p :| p in s.policies && p.ns == ns;
      assert p in t.policies;
    }
    if a :| IsActive(s, a) && a.ns == ns && !Claimable(s, a) {
      assert IsActive(t, a) && !Claimable(t, a);
    }
  }

  lemma {:induction false} ServeAll(s: State, keys: set<Key>, ns: string) returns (steps: seq<Step>)
    requires Inv(s) && s.worker.Idle? && Unservable(s, ns)
    requires forall k :: k in keys ==> k.ns == ns && Pending(s, k)
    ensures IsRun(s, steps) && AllQuiet(steps) && forall k :: k in keys ==> Take(k) in steps
    ensures var t := After(s, steps); Inv(t) && t.worker.Idle? && Unservable(t, ns)
    decreases |keys|
  {
    steps := [];
    if keys != {} {
      var k :| k in keys;
      var one := ServeOne(s, k);
      var rest := ServeAll(After(s, one), keys - {k}, ns);
      RunsJoin(s, one, rest, {ns});
      steps := one + rest;
    }
  }

  lemma SameServed(s: State, t: State, ns: string)
    requires SameIn(s, t, ns) && Unservable(s, ns)
    ensures Unservable(t, ns)
  {
    forall k: Key | k.ns == ns
      ensures (IsActive(t, k) <==> IsActive(s, k)) && (Claimable(t, k) <==> Claimable(s, k))
      ensures (Pending(t, k) <==> Pending(s, k)) && (CanServe(t, k) <==> CanServe(s, k))
    {
      SameDecisions(s, t, ns, k);
    }
    if HasPolicy(s, ns) {
      var p :| p in s.policies && p.ns == ns;
      assert p in t.policies;
    }
    if a :| IsActive(s, a) && a.ns == ns && !Claimable(s, a) {
      assert IsActive(t, a) && !Claimable(t, a);
    }
  }

  /** The pass elsewhere ends, and every request is served without effect. */
  lemma UnservedRound(s: State, ns: string) returns (steps: seq<Step>)
    requires Inv(s) && !WorksOn(s, ns) && Unservable(s, ns)
    ensures Serves(s, steps, ns)
    ensures var t := After(s, steps); Inv(t) && t.worker.Idle? && Unservable(t, ns) && !Promising(t, {ns})
  {
    var finish := UnservableFinish(s, ns);
    var round := IdleRound(After(s, finish), ns);
    ServesJoin(s, finish, round, ns);
    steps := finish + round;
    UnservableIsNotPromising(After(s, steps), ns);
  }

  lemma IdleRound(s: State, ns: string) returns (steps: seq<Step>)
    requires Inv(s) && s.worker.Idle? && Unservable(s, ns)
    ensures Serves(s, steps, ns)
    ensures var t := After(s, steps); Inv(t) && t.worker.Idle? && Unservable(t, ns)
  {
    var keys := set k | k in s.transit + s.queue && k.ns == ns;
    steps := ServeAll(s, keys, ns);
    assert forall k: Key :: k.ns == ns && Pending(s, k) ==> k in keys;
  }

  lemma ServesJoin(s: State, finish: seq<Step>, round: seq<Step>, ns: string)
    requires IsRun(s, finish) && AllQuiet(finish) && Serves(After(s, finish), round, ns)
    requires forall k: Key :: k.ns == ns && Pending(s, k) ==> Pending(After(s, finish), k)
    ensures Serves(s, finish + round, ns) && After(s, finish + round) == After(After(s, finish), round)
  {
    RunsJoin(s, finish, round, {ns});
  }

  lemma UnservableFinish(s: State, ns: string) returns (finish: seq<Step>)
    requires Inv(s) && !WorksOn(s, ns) && Unservable(s, ns)
    ensures IsRun(s, finish) && AllQuiet(finish)
    ensures var m := After(s, finish);
            && Inv(m) && m.worker.Idle? && Unservable(m, ns)
            && forall k: Key :: k.ns == ns && Pending(s, k) ==> Pending(m, k)
  {
    finish := FinishExists(s);
    FinishIsQuiet(s, finish);
    FinishElsewhereIsSame(s, finish, ns);
    SameServed(s, After(s, finish), ns);
  }

  /** In every reachable state in which no pass about the namespace is in flight, every undisturbed schedule that serves
      each pending request once leaves the namespace promising, from where it comes to rest in boundedly many steps,
      exactly when its active policy can claim its quota, or, where none is active, some pending request can be served,
      or there is no policy. Otherwise some such schedule can be repeated for ever. */
  lemma ServedIffServable(s: State, ns: string)
    requires Inv(s) && !WorksOn(s, ns)
    ensures ServingSettles(s, ns) <==> Servable(s, ns)
  {
    UnservableIs(s, ns);
    if Servable(s, ns) {
      forall steps | Serves(s, steps, ns) ensures Promising(After(s, steps), {ns}) {
        ServableServed(s, steps, ns);
      }
    } else {
      var steps := UnservedRound(s, ns);
    }
  }

  ghost predicate ServingSettles(s: State, ns: string) {
    forall steps :: Serves(s, steps, ns) ==> Promising(After(s, steps), {ns})
  }

  /** A pass about the namespace that is in flight counts by the states in which it can end. */
  lemma ServedAfterPassIff(s: State, ns: string)
    requires Inv(s)
    ensures (forall finish :: Finishes(s, finish) ==> ServingSettles(After(s, finish), ns))
            <==> (forall finish :: Finishes(s, finish) ==> Servable(After(s, finish), ns))
  {
    forall finish | Finishes(s, finish)
      ensures ServingSettles(After(s, finish), ns) <==> Servable(After(s, finish), ns)
    {
      FinishIsQuiet(s, finish);
      ServedIffServable(After(s, finish), ns);
    }
  }

  /** Any number of such rounds, one after the other, without the namespace becoming promising. */
  lemma {:induction false} UnservedForEver(s: State, ns: string, n: nat) returns (rounds: seq<seq<Step>>)
    requires Inv(s) && !WorksOn(s, ns) && !Servable(s, ns)
    ensures |rounds| == n && AreRounds(s, rounds, ns)
    decreases n
  {
    rounds := [];
    if n > 0 {
      UnservableIs(s, ns);
      var steps := UnservedRound(s, ns);
      UnservableIs(After(s, steps), ns);
      var rest := UnservedForEver(After(s, steps), ns, n - 1);
      rounds := [steps] + rest;
    }
  }

  ghost predicate AreRounds(s: State, rounds: seq<seq<Step>>, ns: string)
    decreases |rounds|
  {
    rounds == [] || (&& Serves(s, rounds[0], ns) && !Promising(After(s, rounds[0]), {ns})
                     && AreRounds(After(s, rounds[0]), rounds[1..], ns))
  }

  // ----- States that tell the conditions apart -----

  const ADA := Key("team", "ada")
  const BEN := Key("team", "ben")
  const GONE := Key("team", "gone")

  function Fresh(policies: map<Key, Policy>, transit: set<Key>): State {
    State(policies, map[ADA := Quota(1, Foreign)], 2, transit, {}, Idle, Resting, "operator")
  }

  /** A first policy whose quota is in other hands: no schedule helps. */
  lemma NoScheduleHelps() returns (s: State)
    ensures Init(s) && s.policies.Keys == {ADA}
    ensures !Promising(s, {ADA.ns}) && !Servable(s, ADA.ns) && !Hopeful(s, ADA.ns)
  {
    s := Fresh(map[ADA := Policy(0, 0, Unset)], {ADA});
    assert Requested(s, ADA) && !CanServe(s, ADA);
    assert ADA in s.policies;
    assert NoneActive(s, ADA.ns);
  }

  /** With a second policy that can claim its quota, serving everybody helps, but a queue may prefer the first for
      ever. */
  lemma ServingHelps() returns (s: State)
    ensures Init(s) && s.policies.Keys == {ADA, BEN}
    ensures Servable(s, ADA.ns) && !Promising(s, {ADA.ns})
  {
    s := Fresh(map[ADA := Policy(0, 0, Unset), BEN := Policy(1, 1, Unset)], {ADA, BEN});
    assert Requested(s, ADA) && !CanServe(s, ADA);
    assert ADA.name[0] != BEN.name[0];
    assert Pending(s, BEN) && CanServe(s, BEN);
    assert NoneActive(s, ADA.ns);
  }

  /** When only a request for the deleted winner is pending, it depends on the order in which the list is answered. */
  lemma OrderDecides() returns (s: State)
    ensures Inv(s) && s.worker.Idle? && s.policies.Keys == {ADA, BEN}
    ensures Hopeful(s, ADA.ns) && !Servable(s, ADA.ns)
  {
    s := Fresh(map[ADA := Policy(0, 0, Inactive("gone")), BEN := Policy(1, 1, Inactive("gone"))], {GONE});
    assert ADA.name[0] != BEN.name[0] && GONE.name[0] != ADA.name[0] && GONE.name[0] != BEN.name[0];
    assert NoneActive(s, ADA.ns);
    assert Pending(s, GONE);
    assert BEN in s.policies && Claimable(s, BEN);
    assert SomeClaimable(s, ADA.ns) && CanElect(s, GONE);
    assert ADA in s.policies && !Claimable(s, ADA);
    assert !CanServe(s, GONE);
  }
}
