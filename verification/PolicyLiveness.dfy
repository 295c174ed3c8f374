/** The exact conditions under which a namespace that is left alone comes to rest: whatever requests the queue prefers,
    and for some preference. */
module PolicyLiveness {
  import opened Keys
  import opened Wrappers
  import opened PolicyProtocol
  import opened PolicySafety
  import opened PolicyQuiescence
  import opened PolicyConvergence
  import opened PolicySweep

  // ----- A request and its pass, as a run -----

  lemma {:induction false} RunsJoin(s: State, a: seq<Step>, b: seq<Step>, scope: set<string>)
    requires IsRun(s, a) && IsRun(After(s, a), b)
    ensures IsRun(s, a + b) && After(s, a + b) == After(After(s, a), b)
    ensures StepsIn(s, a + b, scope) == StepsIn(s, a, scope) + StepsIn(After(s, a), b, scope)
    decreases |a|
  {
    if a == [] {
      assert a + b == b;
    } else {
      RunsJoin(Apply(s, a[0]), a[1..], b, scope);
      assert (a + b)[1..] == a[1..] + b;
    }
  }

  lemma PassIsQuiet(s: State, key: Key, order: seq<string>)
    requires Names(order, s, key.ns)
    ensures AllQuiet(PassSteps(s, key, order))
  {
  }

  /** The state in which the pass for a pending request starts, with the request off the queue. */
  function Taken(s: State, k: Key): State {
    if k in s.queue then s.(queue := s.queue - {k})
    else s.(transit := s.transit - {k}, queue := s.queue + {k} - {k})
  }

  lemma ServeRun(s: State, k: Key, order: seq<string>) returns (steps: seq<Step>)
    requires s.worker.Idle? && Pending(s, k) && ListOrder(order, s, k.ns)
    ensures IsRun(s, steps) && AllQuiet(steps) && StepsIn(s, steps, {k.ns}) >= 1 && Take(k) in steps
    ensures After(s, steps) == Pass(Taken(s, k), k, order)
  {
    var taken := Taken(s, k);
    PassIsRun(taken, k, order);
    PassIsQuiet(taken, k, order);
    var pass := PassSteps(taken, k, order);
    var queued := if k in s.queue then s else Apply(s, Deliver(k));
    assert Apply(queued, Take(k)) == Begin(taken, k);
    RunStarts(queued, Take(k), pass);
    steps := [Take(k)] + pass;
    if k !in s.queue {
      RunStarts(s, Deliver(k), steps);
      steps := [Deliver(k)] + steps;
    }
  }

  /** A list answer that starts with a given policy. */
  lemma OrderWith(s: State, first: Key) returns (order: seq<string>)
    requires first in s.policies
    ensures ListOrder(order, s, first.ns) && order != [] && order[0] == first.name
  {
    var rest := ListingExists(s.policies - {first}, first.ns);
    OneMoreListed(s.policies, first, rest);
    var items := [Item(first.name, s.policies[first])] + rest;
    order := seq(|items|, i requires 0 <= i < |items| => items[i].name);
    assert Items(order, s, first.ns) == items;
  }

  // ----- Coming to rest, whatever the queue prefers -----

  /** A pending request whose pass cannot claim, if the list is answered in an adverse order. */
  predicate Hopeless(s: State, k: Key) {
    && Pending(s, k)
    && if k in s.policies then !Claimable(s, k) && (IsActive(s, k) || !SomeActive(s, k.ns))
       else !SomeActive(s, k.ns) && !PoliciesClaimable(s, k.ns)
  }

  predicate SomeActive(s: State, ns: string) {
    exists a :: a in s.policies && a.ns == ns && s.policies[a].ready == Active
  }

  lemma SomeActiveIs(s: State, ns: string)
    ensures SomeActive(s, ns) <==> !NoneActive(s, ns)
  {
    if SomeActive(s, ns) {
      var a :| a in s.policies && a.ns == ns && s.policies[a].ready == Active;
      assert IsActive(s, a);
    }
  }

  lemma HopelessExists(s: State, ns: string) returns (k: Key)
    requires Inv(s) && s.worker.Idle? && !Promising(s, {ns})
    ensures k.ns == ns && Hopeless(s, k)
  {
    SomeActiveIs(s, ns);
    if a :| IsActive(s, a) && a.ns == ns && !Claimable(s, a) {
      assert !QuotaGood(s, a);
      k := a;
    } else {
      k :| Requested(s, k) && k.ns == ns && NoneActive(s, ns) && !CanServe(s, k);
    }
  }

  lemma AdverseOrder(s: State, k: Key) returns (order: seq<string>)
    requires AtMostOneActive(s) && Hopeless(s, k)
    ensures ListOrder(order, s, k.ns) && IsRefused(s, k, order)
  {
    var p: Key := k;
    if k !in s.policies {
      p :| p in s.policies && p.ns == k.ns && !Claimable(s, p);
    }
    order := OrderWith(s, p);
    SomeActiveIs(s, k.ns);
    NoneActiveListed(s, k.ns, order);
    if IsActive(s, k) {
      ListingFindsActive(Items(order, s, k.ns), s, k);
    } else {
      assert ActiveIn(s, k.ns) == {};
    }
    assert Written(s, k, order) == Some(p);
  }

  lemma TakenAlike(s: State, k: Key, order: seq<string>)
    requires Names(order, s, k.ns)
    ensures var taken := Taken(s, k);
            && taken.policies == s.policies && taken.quotas == s.quotas && taken.worker == s.worker
            && Names(order, taken, k.ns) && Items(order, taken, k.ns) == Items(order, s, k.ns)
  {
  }

  lemma RefusedPassLeaves(s: State, k: Key, order: seq<string>)
    requires ListOrder(order, s, k.ns) && IsRefused(s, k, order)
    ensures var t := Pass(Taken(s, k), k, order);
            t == Taken(s, k).(worker := Idle, transit := Taken(s, k).transit + {k})
  {
    TakenAlike(s, k, order);
    ClaimsBeforeVerdict(Taken(s, k), k, order);
  }

  lemma StaysHopeless(s: State, t: State, k: Key)
    requires Hopeless(s, k) && t.policies == s.policies && t.quotas == s.quotas && k in t.transit
    ensures Hopeless(t, k)
  {
  }

  /** The pass ends where it began, but for the place of the request. */
  lemma HopelessLoop(s: State, k: Key) returns (steps: seq<Step>)
    requires Inv(s) && s.worker.Idle? && Hopeless(s, k)
    ensures IsRun(s, steps) && AllQuiet(steps) && StepsIn(s, steps, {k.ns}) >= 1
    ensures var t := After(s, steps); Inv(t) && t.worker.Idle? && Hopeless(t, k)
  {
    var order := AdverseOrder(s, k);
    steps := ServeRun(s, k, order);
    RunKeepsInv(s, steps);
    RefusedPassLeaves(s, k, order);
    StaysHopeless(s, Pass(Taken(s, k), k, order), k);
  }

  lemma {:induction false} HopelessForEver(s: State, k: Key, n: nat) returns (steps: seq<Step>)
    requires Inv(s) && s.worker.Idle? && Hopeless(s, k)
    ensures IsRun(s, steps) && AllQuiet(steps) && StepsIn(s, steps, {k.ns}) >= n
    decreases n
  {
    steps := [];
    if n > 0 {
      var loop := HopelessLoop(s, k);
      var rest := HopelessForEver(After(s, loop), k, n - 1);
      RunsJoin(s, loop, rest, {k.ns});
      steps := loop + rest;
    }
  }

  /** No quiet run has more than n steps about the namespace, however many it has elsewhere. */
  ghost predicate BoundedBy(s: State, ns: string, n: nat) {
    forall steps :: IsRun(s, steps) && AllQuiet(steps) ==> StepsIn(s, steps, {ns}) <= n
  }

  // ----- Coming to rest for some preference of the queue -----

  predicate SomeClaimable(s: State, ns: string) {
    exists p :: p in s.policies && p.ns == ns && Claimable(s, p)
  }

  /** Some pass for k activates a policy where none is active. */
  predicate CanElect(s: State, k: Key) {
    if k in s.policies then Claimable(s, k) else SomeClaimable(s, k.ns)
  }

  /** The active policy can claim its quota, or none is active and some pending request can elect one, or the namespace
      has no policy. */
  ghost predicate Hopeful(s: State, ns: string) {
    && (forall a :: IsActive(s, a) && a.ns == ns ==> Claimable(s, a))
    && (NoneActive(s, ns) && (exists p :: p in s.policies && p.ns == ns) ==>
          exists k: Key :: k.ns == ns && Pending(s, k) && CanElect(s, k))
  }

  lemma HelpfulOrder(s: State, k: Key) returns (order: seq<string>, p: Key)
    requires NoneActive(s, k.ns) && CanElect(s, k)
    ensures ListOrder(order, s, k.ns) && GetActive(Items(order, s, k.ns)).None?
    ensures Written(s, k, order) == Some(p) && p.ns == k.ns && p in s.policies && Claimable(s, p)
  {
    p := k;
    if k !in s.policies {
      p :| p in s.policies && p.ns == k.ns && Claimable(s, p);
    }
    order := OrderWith(s, p);
    NoneActiveListed(s, k.ns, order);
    assert forall a :: a in ActiveIn(s, k.ns) ==> IsActive(s, a);
  }

  /** The pass that elects makes the namespace promising. */
  lemma ElectingPass(s: State, k: Key) returns (steps: seq<Step>)
    requires Inv(s) && s.worker.Idle? && Pending(s, k) && NoneActive(s, k.ns) && CanElect(s, k)
    ensures IsRun(s, steps) && AllQuiet(steps)
    ensures var t := After(s, steps); Inv(t) && t.worker.Idle? && Promising(t, {k.ns})
  {
    var order, p := HelpfulOrder(s, k);
    steps := ServeRun(s, k, order);
    RunKeepsInv(s, steps);
    TakenAlike(s, k, order);
    PassWrites(Taken(s, k), k, order);
    ActiveIsPromising(After(s, steps), p);
  }

  lemma ActiveIsPromising(s: State, p: Key)
    requires AtMostOneActive(s) && s.worker.Idle? && IsActive(s, p) && Claimable(s, p)
    ensures Promising(s, {p.ns})
  {
  }

  ghost predicate LeadsToRest(s: State, steps: seq<Step>, ns: string) {
    IsRun(s, steps) && AllQuiet(steps) && QuiescentIn(After(s, steps), ns)
  }

  lemma HopefulRests(s: State, ns: string) returns (steps: seq<Step>)
    requires Inv(s) && s.worker.Idle? && Hopeful(s, ns)
    ensures LeadsToRest(s, steps, ns)
  {
    if NoneActive(s, ns) && exists p :: p in s.policies && p.ns == ns {
      var k: Key :| k.ns == ns && Pending(s, k) && CanElect(s, k);
      var first := ElectingPass(s, k);
      var rest := RestReached(After(s, first), ns);
      RunsJoin(s, first, rest, {ns});
      steps := first + rest;
    } else {
      HopefulPromises(s, ns);
      steps := RestReached(s, ns);
    }
  }

  lemma HopefulPromises(s: State, ns: string)
    requires s.worker.Idle? && Hopeful(s, ns)
    requires !NoneActive(s, ns) || !exists p :: p in s.policies && p.ns == ns
    ensures Promising(s, {ns})
  {
  }

  // ----- Never coming to rest -----

  /** No active policy can claim its quota, and where none is active no request can elect one. */
  ghost predicate Stuck(s: State, ns: string) {
    && (exists p :: p in s.policies && p.ns == ns)
    && (forall a :: IsActive(s, a) && a.ns == ns ==> !Claimable(s, a))
    && (NoneActive(s, ns) ==> forall k: Key :: k.ns == ns && Requested(s, k) ==> !CanElect(s, k))
    && (WorksOn(s, ns) ==> PassStuck(s))
  }

  ghost predicate PassStuck(s: State) {
    && UpToDate(s)
    && (s.worker.Decided? && Wanted(s.worker) == Active ==>
          !s.worker.quotaDone && !Claimable(s, Key(s.worker.key.ns, s.worker.target)))
  }

  /** A step that only moves requests elects nobody. */
  lemma MovesKeepStuck(s: State, t: State, ns: string)
    requires Stuck(s, ns) && t.policies == s.policies && t.quotas == s.quotas
    requires forall k: Key :: k.ns == ns && Requested(t, k) ==> Requested(s, k)
    requires WorksOn(t, ns) ==> PassStuck(t)
    ensures Stuck(t, ns)
  {
    var p :| p in s.policies && p.ns == ns;
    assert p in t.policies;
    forall k: Key | NoneActive(t, ns) && k.ns == ns && Requested(t, k) ensures !CanElect(t, k) {
      assert NoneActive(s, ns) && !CanElect(s, k);
      CanElectAlike(s, t, k);
    }
  }

  lemma CanElectAlike(s: State, t: State, k: Key)
    requires t.policies.Keys == s.policies.Keys
    requires forall q: Key :: q.ns == k.ns ==> (Claimable(t, q) <==> Claimable(s, q))
    ensures CanElect(t, k) <==> CanElect(s, k)
  {
    if SomeClaimable(s, k.ns) {
      var p :| p in s.policies && p.ns == k.ns && Claimable(s, p);
      assert p in t.policies && Claimable(t, p);
    }
    if SomeClaimable(t, k.ns) {
      var p :| p in t.policies && p.ns == k.ns && Claimable(t, p);
      assert p in s.policies && Claimable(s, p);
    }
  }

  lemma ElsewhereKeepsStuck(s: State, step: Step, ns: string)
    requires Stuck(s, ns) && Enabled(s, step) && Quiet(step) && About(s, step) != ns
    ensures Stuck(Apply(s, step), ns)
  {
    var t := Apply(s, step);
    ElsewhereKeeps(s, step, {ns});
    var p :| p in s.policies && p.ns == ns;
    assert p in t.policies;
    forall k: Key | k.ns == ns
      ensures (IsActive(t, k) <==> IsActive(s, k)) && (Claimable(t, k) <==> Claimable(s, k))
      ensures Requested(t, k) ==> Requested(s, k)
    {
    }
    forall k: Key | NoneActive(t, ns) && k.ns == ns && Requested(t, k) ensures !CanElect(t, k) {
      assert NoneActive(s, ns) && !CanElect(s, k);
      CanElectAlike(s, t, k);
    }
    if WorksOn(t, ns) {
      assert t.policies == s.policies && t.quotas == s.quotas && t.worker == s.worker;
    }
  }

  lemma GetStuck(s: State, ns: string)
    requires Stuck(s, ns) && Enabled(s, Get) && s.worker.key.ns == ns
    ensures var t := Apply(s, Get); WorksOn(t, ns) ==> PassStuck(t)
  {
    var t := Apply(s, Get);
    var key := s.worker.key;
    GetMoves(s);
    GetStaysUpToDate(s);
    if t.worker.Decided? && Wanted(t.worker) == Active {
      var target := Key(ns, t.worker.target);
      if NoneActive(s, ns) {
        assert !CanElect(s, key);
      } else {
        assert IsActive(s, target);
      }
    }
  }

  /** The claim of a stuck pass is refused. */
  lemma OnlyMoves(s: State, step: Step, ns: string)
    requires Stuck(s, ns) && Enabled(s, step) && About(s, step) == ns
    requires step.Deliver? || step.Take? || step.List? || step == WriteQuota(true)
    ensures var t := Apply(s, step);
            && t.policies == s.policies && t.quotas == s.quotas
            && (forall k: Key :: k.ns == ns && Requested(t, k) ==> Requested(s, k))
            && (WorksOn(t, ns) ==> PassStuck(t))
  {
  }

  lemma WriteStatusKeepsStuck(s: State, ns: string)
    requires Safe(s) && Stuck(s, ns) && Enabled(s, WriteStatus(true)) && s.worker.key.ns == ns
    ensures Stuck(Apply(s, WriteStatus(true)), ns)
  {
    var t := Apply(s, WriteStatus(true));
    var p :| p in s.policies && p.ns == ns;
    assert p in t.policies;
    FreshWriteLeavesActive(s);
    assert forall k :: Claimable(t, k) <==> Claimable(s, k);
    assert forall a :: IsActive(t, a) ==> IsActive(s, a);
  }

  lemma QuietKeepsStuck(s: State, step: Step, ns: string)
    requires Inv(s) && Stuck(s, ns) && Enabled(s, step) && Quiet(step)
    ensures Stuck(Apply(s, step), ns)
  {
    if About(s, step) != ns {
      ElsewhereKeepsStuck(s, step, ns);
    } else if step.WriteStatus? {
      WriteStatusKeepsStuck(s, ns);
    } else {
      if step.Get? {
        GetStuck(s, ns);
        GetMoves(s);
      } else {
        OnlyMoves(s, step, ns);
      }
      MovesKeepStuck(s, Apply(s, step), ns);
    }
  }

  lemma {:induction false} StuckNeverRests(s: State, steps: seq<Step>, ns: string)
    requires Inv(s) && Stuck(s, ns) && IsRun(s, steps) && AllQuiet(steps)
    ensures !QuiescentIn(After(s, steps), ns) && Stuck(After(s, steps), ns)
    decreases |steps|
  {
    if steps == [] {
      if QuiescentIn(s, ns) {
        var p :| p in s.policies && p.ns == ns;
        var a := QuiescentInvElected(s, p);
        assert Claimable(s, a);
        assert false;
      }
    } else {
      StepKeepsInv(s, steps[0]);
      QuietKeepsStuck(s, steps[0], ns);
      StuckNeverRests(Apply(s, steps[0]), steps[1..], ns);
    }
  }

  lemma HopelessIsStuck(s: State, ns: string)
    requires AtMostOneActive(s) && s.worker.Idle? && !Hopeful(s, ns)
    ensures Stuck(s, ns)
  {
    if !NoneActive(s, ns) {
      var a :| IsActive(s, a) && a.ns == ns;
      assert a in s.policies;
    }
  }

  // ----- The pass in flight -----

  /** The pass in flight, if any, goes on to its end. */
  ghost predicate Finishes(s: State, steps: seq<Step>) {
    && IsRun(s, steps)
    && (forall i :: 0 <= i < |steps| ==> InPass(steps[i]))
    && After(s, steps).worker.Idle?
  }

  lemma {:induction false} FinishExists(s: State) returns (steps: seq<Step>)
    ensures Finishes(s, steps)
    decreases PassLeft(s.worker)
  {
    if s.worker.Idle? {
      steps := [];
    } else {
      if QuiescentIn(s, s.worker.key.ns) {
        assert false;
      }
      var step := QuietStepExists(s, s.worker.key.ns);
      PassGoesOn(s, step);
      var rest := FinishExists(Apply(s, step));
      RunStarts(s, step, rest);
      steps := [step] + rest;
    }
  }

  lemma NothingToFinish(s: State, steps: seq<Step>)
    requires s.worker.Idle? && Finishes(s, steps)
    ensures steps == []
  {
  }

  lemma FinishStarts(s: State, step: Step, rest: seq<Step>)
    requires Enabled(s, step) && InPass(step) && Finishes(Apply(s, step), rest)
    ensures Finishes(s, [step] + rest) && After(s, [step] + rest) == After(Apply(s, step), rest)
  {
    RunStarts(s, step, rest);
  }

  // ----- States that differ elsewhere -----

  /** The same policies, quotas and requests of one namespace, on which no pass works. */
  ghost predicate SameIn(s: State, t: State, ns: string) {
    && !WorksOn(s, ns) && !WorksOn(t, ns)
    && forall k: Key :: k.ns == ns ==>
                          && (k in t.policies <==> k in s.policies)
                          && (k in s.policies ==> t.policies[k] == s.policies[k])
                          && QuotaAt(t, k) == QuotaAt(s, k)
                          && (Pending(t, k) <==> Pending(s, k))
  }

  lemma ElsewhereIsSame(s: State, step: Step, ns: string)
    requires Enabled(s, step) && InPass(step) && !WorksOn(s, ns)
    ensures SameIn(s, Apply(s, step), ns)
  {
    ElsewhereKeeps(s, step, {ns});
    PassGoesOn(s, step);
  }

  lemma {:induction false} FinishElsewhereIsSame(s: State, steps: seq<Step>, ns: string)
    requires !WorksOn(s, ns) && Finishes(s, steps)
    ensures SameIn(s, After(s, steps), ns)
    decreases |steps|
  {
    if steps != [] {
      ElsewhereIsSame(s, steps[0], ns);
      FinishElsewhereIsSame(Apply(s, steps[0]), steps[1..], ns);
    }
  }

  lemma SameDecisions(s: State, t: State, ns: string, k: Key)
    requires SameIn(s, t, ns) && k.ns == ns
    ensures (IsActive(t, k) <==> IsActive(s, k)) && (Claimable(t, k) <==> Claimable(s, k))
    ensures Requested(t, k) <==> Requested(s, k)
    ensures CanServe(t, k) <==> CanServe(s, k)
    ensures CanElect(t, k) <==> CanElect(s, k)
  {
    forall q: Key | q.ns == ns ensures Claimable(t, q) <==> Claimable(s, q) {
    }
    if SomeClaimable(s, ns) {
      var p :| p in s.policies && p.ns == ns && Claimable(s, p);
      assert p in t.policies && Claimable(t, p);
    }
    if SomeClaimable(t, ns) {
      var p :| p in t.policies && p.ns == ns && Claimable(t, p);
      assert p in s.policies && Claimable(s, p);
    }
  }

  lemma SamePromises(s: State, t: State, ns: string)
    requires SameIn(s, t, ns)
    ensures Promising(t, {ns}) <==> Promising(s, {ns})
  {
    forall k: Key | k.ns == ns
      ensures (IsActive(t, k) <==> IsActive(s, k)) && (Claimable(t, k) <==> Claimable(s, k))
      ensures (Requested(t, k) <==> Requested(s, k)) && (CanServe(t, k) <==> CanServe(s, k))
    {
      SameDecisions(s, t, ns, k);
    }
    assert NoneActive(t, ns) <==> NoneActive(s, ns);
  }

  lemma SameHopes(s: State, t: State, ns: string)
    requires SameIn(s, t, ns)
    ensures Hopeful(s, ns) ==> Hopeful(t, ns)
  {
    forall k: Key | k.ns == ns
      ensures (IsActive(t, k) <==> IsActive(s, k)) && (Claimable(t, k) <==> Claimable(s, k))
      ensures (Pending(t, k) <==> Pending(s, k)) && (CanElect(t, k) <==> CanElect(s, k))
    {
      SameDecisions(s, t, ns, k);
    }
    if Hopeful(s, ns) && NoneActive(t, ns) && exists p :: p in t.policies && p.ns == ns {
      var p :| p in t.policies && p.ns == ns;
      assert p in s.policies;
      var k: Key :| k.ns == ns && Pending(s, k) && CanElect(s, k);
      assert Pending(t, k) && CanElect(t, k);
    }
  }

  lemma SameIsSymmetric(s: State, t: State, ns: string)
    requires SameIn(s, t, ns)
    ensures SameIn(t, s, ns)
  {
  }

  // ----- A request delivered while a pass goes on -----

  /** States that differ at most in where their requests are queued. */
  ghost predicate SameWork(a: State, b: State) {
    && a.policies == b.policies && a.quotas == b.quotas && a.clock == b.clock && a.worker == b.worker
    && forall k :: Pending(a, k) <==> Pending(b, k)
  }

  lemma StepAlike(a: State, b: State, step: Step)
    requires SameWork(a, b) && Enabled(a, step) && InPass(step)
    ensures Enabled(b, step) && SameWork(Apply(a, step), Apply(b, step))
  {
    forall k ensures Pending(Apply(a, step), k) <==> Pending(Apply(b, step), k) {
      assert Pending(a, k) <==> Pending(b, k);
    }
  }

  lemma {:induction false} FinishAlike(a: State, b: State, steps: seq<Step>)
    requires SameWork(a, b) && Finishes(a, steps)
    ensures Finishes(b, steps) && SameWork(After(a, steps), After(b, steps))
    decreases |steps|
  {
    if steps != [] {
      StepAlike(a, b, steps[0]);
      FinishAlike(Apply(a, steps[0]), Apply(b, steps[0]), steps[1..]);
    }
  }

  // ----- The exact conditions, whatever the worker does -----

  /** However the pass in flight can end, the namespace is promising then. */
  ghost predicate PromisingAfterPass(s: State, ns: string) {
    forall steps :: Finishes(s, steps) ==> Promising(After(s, steps), {ns})
  }

  /** The pass in flight can end so that the namespace is hopeful. */
  ghost predicate HopefulAfterPass(s: State, ns: string) {
    exists steps :: Finishes(s, steps) && Hopeful(After(s, steps), ns)
  }

  lemma IdlePromises(s: State, ns: string)
    requires s.worker.Idle?
    ensures PromisingAfterPass(s, ns) <==> Promising(s, {ns})
    ensures HopefulAfterPass(s, ns) <==> Hopeful(s, ns)
  {
    assert Finishes(s, []);
    forall steps | Finishes(s, steps) ensures steps == [] {
      NothingToFinish(s, steps);
    }
  }

  /** A pass elsewhere does not matter. */
  lemma ElsewherePromises(s: State, ns: string)
    requires !WorksOn(s, ns)
    ensures PromisingAfterPass(s, ns) <==> Promising(s, {ns})
    ensures HopefulAfterPass(s, ns) <==> Hopeful(s, ns)
  {
    forall steps | Finishes(s, steps)
      ensures Promising(After(s, steps), {ns}) <==> Promising(s, {ns})
      ensures Hopeful(After(s, steps), ns) <==> Hopeful(s, ns)
    {
      FinishElsewhereIsSame(s, steps, ns);
      SamePromises(s, After(s, steps), ns);
      SameHopes(s, After(s, steps), ns);
      SameIsSymmetric(s, After(s, steps), ns);
      SameHopes(After(s, steps), s, ns);
    }
    var steps := FinishExists(s);
  }

  lemma WorkPromises(a: State, b: State, ns: string)
    requires SameWork(a, b) && a.worker.Idle?
    ensures Promising(a, {ns}) <==> Promising(b, {ns})
    ensures Hopeful(a, ns) <==> Hopeful(b, ns)
  {
    assert SameIn(a, b, ns) && SameIn(b, a, ns);
    SamePromises(a, b, ns);
    SameHopes(a, b, ns);
    SameHopes(b, a, ns);
  }

  lemma PassKeepsPromise(s: State, step: Step, ns: string)
    requires !s.worker.Idle? && PromisingAfterPass(s, ns) && Enabled(s, step) && Quiet(step)
    ensures PromisingAfterPass(Apply(s, step), ns)
  {
    var t := Apply(s, step);
    forall steps | Finishes(t, steps) ensures Promising(After(t, steps), {ns}) {
      if InPass(step) {
        FinishStarts(s, step, steps);
      } else {
        assert SameWork(t, s);
        FinishAlike(t, s, steps);
        WorkPromises(After(t, steps), After(s, steps), ns);
      }
    }
  }

  /** A rank that also every step of an outdated pass brings down. */
  function FlightRank(s: State, scope: set<string>): nat {
    Backlog(s, scope) + if Working(s, scope) then 60 * PassLeft(s.worker) else 0
  }

  lemma ClaimAddsLittle(s: State, scope: set<string>)
    requires Enabled(s, WriteQuota(true))
    ensures Backlog(Apply(s, WriteQuota(true)), scope) <= Backlog(s, scope) + 27
  {
    var t := Apply(s, WriteQuota(true));
    var k := Key(s.worker.key.ns, s.worker.target);
    var x := if t.worker.Idle? then s.worker.key else k;
    assert t.policies == s.policies && t.queue == s.queue && t.transit <= s.transit + {x};
    assert forall q :: q != k ==> QuotaAt(t, q) == QuotaAt(s, q);
    assert Unsettled(t, scope) == Unsettled(s, scope);
    OneMore(Unclaimed(t, scope), Unclaimed(s, scope), k);
    OneMore(Within(t.transit, scope), Within(s.transit, scope), x);
  }

  lemma VerdictAddsLittle(s: State, scope: set<string>)
    requires Inv(s) && Enabled(s, WriteStatus(true))
    ensures Backlog(Apply(s, WriteStatus(true)), scope) <= Backlog(s, scope) + 7
  {
    var t := Apply(s, WriteStatus(true));
    WriteStatusUnsettlesNone(s, scope);
    SubsetSize(Unsettled(t, scope), Unsettled(s, scope));
    WriteStatusAdds(s, scope);
    var k :| t.transit <= s.transit + {k};
    OneMore(Within(t.transit, scope), Within(s.transit, scope), k);
  }

  lemma FlightDescends(s: State, step: Step, scope: set<string>)
    requires Inv(s) && !s.worker.Idle? && Enabled(s, step) && Quiet(step) && About(s, step) in scope
    ensures FlightRank(Apply(s, step), scope) < FlightRank(s, scope)
  {
    if step.Deliver? {
      DeliverDescends(s, step.k, scope);
    } else {
      PassGoesOn(s, step);
      if step.WriteQuota? {
        ClaimAddsLittle(s, scope);
      } else if step.WriteStatus? {
        VerdictAddsLittle(s, scope);
      } else {
        SameSizes(s, Apply(s, step), scope);
      }
    }
  }

  lemma {:induction false} FlightsAreShort(s: State, steps: seq<Step>, ns: string)
    requires Inv(s) && PromisingAfterPass(s, ns) && IsRun(s, steps) && AllQuiet(steps)
    ensures StepsIn(s, steps, {ns}) <= FlightRank(s, {ns})
    decreases |steps|
  {
    if s.worker.Idle? {
      IdlePromises(s, ns);
      QuietRunsAreShort(s, steps, {ns});
    } else if steps != [] {
      StepKeepsInv(s, steps[0]);
      PassKeepsPromise(s, steps[0], ns);
      if About(s, steps[0]) == ns {
        FlightDescends(s, steps[0], {ns});
      } else {
        ElsewhereKeepsRank(s, steps[0], {ns});
        ElsewhereKeeps(s, steps[0], {ns});
      }
      FlightsAreShort(Apply(s, steps[0]), steps[1..], ns);
    }
  }

  lemma FinishIsQuiet(s: State, steps: seq<Step>)
    requires Inv(s) && Finishes(s, steps)
    ensures AllQuiet(steps) && Inv(After(s, steps))
  {
    RunKeepsInv(s, steps);
  }

  /** In every reachable state, the undisturbed steps about a namespace are bounded, whatever the queue prefers,
      exactly when the namespace is promising once the pass in flight has ended, however it ends: its active policy
      can claim its quota or, where none is active, every pending request can be served, a policy's own by that
      policy, one for a policy that is gone by whichever is listed first. Unless the pass in flight is about the
      namespace, that can be read off the state itself. */
  lemma BoundedIffPromising(s: State, ns: string)
    requires Inv(s)
    ensures (exists n: nat :: BoundedBy(s, ns, n)) <==> PromisingAfterPass(s, ns)
    ensures !WorksOn(s, ns) ==> (PromisingAfterPass(s, ns) <==> Promising(s, {ns}))
  {
    if !WorksOn(s, ns) {
      ElsewherePromises(s, ns);
    }
    if PromisingAfterPass(s, ns) {
      forall steps | IsRun(s, steps) && AllQuiet(steps) ensures StepsIn(s, steps, {ns}) <= FlightRank(s, {ns}) {
        FlightsAreShort(s, steps, ns);
      }
      assert BoundedBy(s, ns, FlightRank(s, {ns}));
    } else {
      var finish :| Finishes(s, finish) && !Promising(After(s, finish), {ns});
      FinishIsQuiet(s, finish);
      UnboundedAfter(s, finish, ns);
    }
  }

  lemma UnboundedAfter(s: State, finish: seq<Step>, ns: string)
    requires IsRun(s, finish) && AllQuiet(finish) && Inv(After(s, finish)) && After(s, finish).worker.Idle?
    requires !Promising(After(s, finish), {ns})
    ensures forall n: nat :: !BoundedBy(s, ns, n)
  {
    var k := HopelessExists(After(s, finish), ns);
    forall n: nat ensures !BoundedBy(s, ns, n) {
      var loops := HopelessForEver(After(s, finish), k, n + 1);
      RunsJoin(s, finish, loops, {ns});
      assert AllQuiet(finish + loops);
    }
  }

  lemma IdleRestIffHopeful(s: State, ns: string)
    requires Inv(s) && s.worker.Idle?
    ensures (exists steps :: LeadsToRest(s, steps, ns)) <==> Hopeful(s, ns)
  {
    if Hopeful(s, ns) {
      var steps := HopefulRests(s, ns);
    } else {
      HopelessIsStuck(s, ns);
      forall steps ensures !LeadsToRest(s, steps, ns) {
        if IsRun(s, steps) && AllQuiet(steps) {
          StuckNeverRests(s, steps, ns);
        }
      }
    }
  }

  /** A run to rest lets the pass in flight end hopefully. */
  lemma {:induction false} RestWasHopeful(s: State, steps: seq<Step>, ns: string)
    requires Inv(s) && LeadsToRest(s, steps, ns)
    ensures HopefulAfterPass(s, ns)
    decreases |steps|
  {
    if s.worker.Idle? {
      IdleRestIffHopeful(s, ns);
      IdlePromises(s, ns);
    } else if steps == [] {
      RestIsHopeful(s, ns);
      ElsewherePromises(s, ns);
    } else {
      var t := Apply(s, steps[0]);
      StepKeepsInv(s, steps[0]);
      RestWasHopeful(t, steps[1..], ns);
      var finish :| Finishes(t, finish) && Hopeful(After(t, finish), ns);
      if InPass(steps[0]) {
        FinishStarts(s, steps[0], finish);
      } else {
        assert SameWork(t, s);
        FinishAlike(t, s, finish);
        WorkPromises(After(t, finish), After(s, finish), ns);
      }
    }
  }

  lemma RestIsHopeful(s: State, ns: string)
    requires Inv(s) && QuiescentIn(s, ns)
    ensures Hopeful(s, ns)
  {
    if p :| p in s.policies && p.ns == ns {
      var a := QuiescentInvElected(s, p);
      assert Claimable(s, a);
    }
  }

  /** In every reachable state, some undisturbed run brings a namespace to rest exactly when the pass in flight can
      end so that its active policy can claim its quota or, where none is active, some pending request can elect one,
      or there is no policy to elect. Unless the pass in flight is about the namespace, that can be read off the state
      itself. */
  lemma CanRestIffHopeful(s: State, ns: string)
    requires Inv(s)
    ensures (exists steps :: LeadsToRest(s, steps, ns)) <==> HopefulAfterPass(s, ns)
    ensures !WorksOn(s, ns) ==> (HopefulAfterPass(s, ns) <==> Hopeful(s, ns))
  {
    if !WorksOn(s, ns) {
      ElsewherePromises(s, ns);
    }
    if HopefulAfterPass(s, ns) {
      var finish :| Finishes(s, finish) && Hopeful(After(s, finish), ns);
      FinishIsQuiet(s, finish);
      var rest := HopefulRests(After(s, finish), ns);
      RunsJoin(s, finish, rest, {ns});
      assert LeadsToRest(s, finish + rest, ns);
    } else {
      forall steps ensures !LeadsToRest(s, steps, ns) {
        if LeadsToRest(s, steps, ns) {
          RestWasHopeful(s, steps, ns);
        }
      }
    }
  }

  // ----- Quotas that all belong to others -----

  /** None of the policies of ns is active and each one's quota is controlled by something else. */
  ghost predicate Blocked(s: State, ns: string) {
    && (forall k :: k in s.policies && k.ns == ns ==> !IsActive(s, k) && !Claimable(s, k))
    && (s.worker.Decided? && s.worker.key.ns == ns && s.worker.quotaDone ==> Key(ns, s.worker.target) !in s.policies)
  }

  lemma QuietKeepsBlocked(s: State, step: Step, ns: string)
    requires Blocked(s, ns) && Enabled(s, step) && Quiet(step)
    ensures Blocked(Apply(s, step), ns) && Apply(s, step).policies.Keys == s.policies.Keys
  {
  }

  /** Left alone, such a namespace neither elects a policy nor comes to rest: its requests are retried for ever. */
  lemma {:induction false} BlockedNeverElects(s: State, steps: seq<Step>, k: Key)
    requires Inv(s) && Blocked(s, k.ns) && k in s.policies && IsRun(s, steps)
    requires AllQuiet(steps)
    ensures !QuiescentIn(After(s, steps), k.ns)
    ensures forall p :: IsActive(After(s, steps), p) ==> p.ns != k.ns
    decreases |steps|
  {
    if steps == [] {
      if QuiescentIn(s, k.ns) {
        var a := QuiescentInvElected(s, k);
        assert false;
      }
    } else {
      StepKeepsInv(s, steps[0]);
      QuietKeepsBlocked(s, steps[0], k.ns);
      BlockedNeverElects(Apply(s, steps[0]), steps[1..], k);
    }
  }
}
