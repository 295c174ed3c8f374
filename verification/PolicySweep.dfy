/** Self-stabilisation: uninterrupted passes repair any assignment of PolicyReady values, even several True. */
module PolicySweep {
  import opened Keys
  import opened Wrappers
  import opened PolicyProtocol
  import opened PolicyQuiescence
  import opened PolicyConvergence

  predicate Names(order: seq<string>, s: State, ns: string) {
    forall i :: 0 <= i < |order| ==> Key(ns, order[i]) in s.policies
  }

  /** The list call answers with the policies of ns in the given order. */
  function Items(order: seq<string>, s: State, ns: string): (items: seq<Item>)
    requires Names(order, s, ns)
  {
    seq(|order|, i requires 0 <= i < |order| => Item(order[i], s.policies[Key(ns, order[i])]))
  }

  ghost predicate ListOrder(order: seq<string>, s: State, ns: string) {
    Names(order, s, ns) && IsListing(Items(order, s, ns), s.policies, ns)
  }

  function Begin(s: State, key: Key): State {
    s.(worker := Started(key))
  }

  /** The writes of a pass that has settled on a policy. */
  function Rest(got: State): (t: State)
    requires got.worker.Decided?
    ensures t.policies.Keys == got.policies.Keys && t.worker.Idle?
  {
    var claimed := if Wanted(got.worker) == Active then ApplyWriteQuota(got, true) else got;
    if claimed.worker.Idle? then claimed else ApplyWriteStatus(claimed, true)
  }

  /** One pass with no other step in between. */
  function Pass(s: State, key: Key, order: seq<string>): (t: State)
    requires Names(order, s, key.ns)
    ensures t.policies.Keys == s.policies.Keys && t.worker.Idle?
  {
    var got := ApplyGet(s.(worker := Listed(key, Items(order, s, key.ns))));
    if got.worker.Idle? then got else Rest(got)
  }

  /** The steps Pass stands for. */
  function PassSteps(s: State, key: Key, order: seq<string>): seq<Step>
    requires Names(order, s, key.ns)
  {
    var items := Items(order, s, key.ns);
    var got := ApplyGet(s.(worker := Listed(key, items)));
    [List(items)] + ([Get] +
      if got.worker.Idle? then []
      else if Wanted(got.worker) != Active then [WriteStatus(true)] + []
      else [WriteQuota(true)] + if ApplyWriteQuota(got, true).worker.Idle? then [] else [WriteStatus(true)] + [])
  }

  lemma PassEndIsRun(got: State)
    requires got.worker.Decided? && !got.worker.quotaDone && Wanted(got.worker) == Active
    requires !ApplyWriteQuota(got, true).worker.Idle?
    ensures var end := [WriteQuota(true)] + ([WriteStatus(true)] + []);
            IsRun(got, end) && After(got, end) == ApplyWriteStatus(ApplyWriteQuota(got, true), true)
  {
    RunStarts(ApplyWriteQuota(got, true), WriteStatus(true), []);
    RunStarts(got, WriteQuota(true), [WriteStatus(true)] + []);
  }

  lemma PassIsRun(s: State, key: Key, order: seq<string>)
    requires ListOrder(order, s, key.ns)
    ensures IsRun(Begin(s, key), PassSteps(s, key, order))
    ensures After(Begin(s, key), PassSteps(s, key, order)) == Pass(s, key, order)
  {
    var items := Items(order, s, key.ns);
    var listed := Apply(Begin(s, key), List(items));
    assert listed == s.(worker := Listed(key, items));
    var got := ApplyGet(listed);
    var end := PassSteps(s, key, order)[2..];
    if got.worker.Idle? {
      assert end == [];
    } else if Wanted(got.worker) != Active {
      assert end == [WriteStatus(true)] + [];
      RunStarts(got, WriteStatus(true), []);
    } else if ApplyWriteQuota(got, true).worker.Idle? {
      assert end == [WriteQuota(true)] + [];
      RunStarts(got, WriteQuota(true), []);
    } else {
      assert end == [WriteQuota(true)] + ([WriteStatus(true)] + []);
      PassEndIsRun(got);
    }
    RunStarts(listed, Get, end);
    RunStarts(Begin(s, key), List(items), [Get] + end);
    assert PassSteps(s, key, order) == [List(items)] + ([Get] + end);
  }

  // ----- What one pass does to the verdicts -----

  /** The policy a pass turns to. */
  function Target(s: State, key: Key, order: seq<string>): Key
    requires order != []
  {
    if key in s.policies then key else Key(key.ns, order[0])
  }

  /** Where a pass writes. */
  function Written(s: State, key: Key, order: seq<string>): Option<Key>
    requires Names(order, s, key.ns)
  {
    if key in s.policies then Some(key)
    else if order != [] && GetActive(Items(order, s, key.ns)).None? then Some(Key(key.ns, order[0]))
    else None
  }

  /** The pass wants to activate a policy whose quota something else controls, and gives up. */
  predicate IsRefused(s: State, key: Key, order: seq<string>)
    requires Names(order, s, key.ns)
  {
    var written := Written(s, key, order);
    && written.Some? && !Claimable(s, written.value)
    && VerdictFor(GetActive(Items(order, s, key.ns)), written.value.name) == Active
  }

  ghost predicate Wrote(s: State, t: State, key: Key, order: seq<string>)
    requires Names(order, s, key.ns)
  {
    && t.policies.Keys == s.policies.Keys
    && (forall k :: Claimable(t, k) <==> Claimable(s, k))
    && forall k :: k in s.policies ==>
                     t.policies[k].ready
                     == if Written(s, key, order) == Some(k) && !IsRefused(s, key, order)
                        then VerdictFor(GetActive(Items(order, s, key.ns)), k.name)
                        else s.policies[k].ready
  }

  lemma QuotaLeavesPolicies(s: State)
    requires s.worker.Decided?
    ensures var t := ApplyWriteQuota(s, true);
            && t.policies == s.policies
            && t.worker
               == (if Claimable(s, Key(s.worker.key.ns, s.worker.target)) then s.worker.(quotaDone := true) else Idle)
            && forall k :: Claimable(t, k) <==> Claimable(s, k)
  {
  }

  lemma StatusWrites(s: State)
    requires s.worker.Decided?
    requires var k := Key(s.worker.key.ns, s.worker.target); k in s.policies && s.policies[k] == s.worker.copy
    ensures var t := ApplyWriteStatus(s, true);
            && t.policies.Keys == s.policies.Keys && t.quotas == s.quotas
            && forall k :: k in s.policies ==>
                             t.policies[k].ready
                             == if k == Key(s.worker.key.ns, s.worker.target) then Wanted(s.worker)
                                else s.policies[k].ready
  {
  }

  /** The writes when the pass holds an up-to-date copy. */
  lemma RestWrites(got: State)
    requires got.worker.Decided?
    requires var k := Key(got.worker.key.ns, got.worker.target); k in got.policies && got.policies[k] == got.worker.copy
    ensures var t := Rest(got);
            var k := Key(got.worker.key.ns, got.worker.target);
            && t.policies.Keys == got.policies.Keys
            && (forall q :: Claimable(t, q) <==> Claimable(got, q))
            && forall q :: q in got.policies ==>
                             t.policies[q].ready
                             == if q == k && (Wanted(got.worker) != Active || Claimable(got, k)) then Wanted(got.worker)
                                else got.policies[q].ready
  {
    QuotaLeavesPolicies(got);
    var claimed := if Wanted(got.worker) == Active then ApplyWriteQuota(got, true) else got;
    if claimed.worker.Decided? {
      StatusWrites(claimed);
    }
  }

  lemma GetSettles(s: State, key: Key, order: seq<string>)
    requires Names(order, s, key.ns)
    ensures var items := Items(order, s, key.ns);
            var worker := ApplyGet(s.(worker := Listed(key, items))).worker;
            if Written(s, key, order).None? then worker == Idle
            else
              var k := Written(s, key, order).value;
              && k in s.policies && k.ns == key.ns
              && worker == Decided(key, GetActive(items), k.name, s.policies[k], false)
  {
  }

  lemma PassWrites(s: State, key: Key, order: seq<string>)
    requires Names(order, s, key.ns)
    ensures Wrote(s, Pass(s, key, order), key, order)
  {
    var got := ApplyGet(s.(worker := Listed(key, Items(order, s, key.ns))));
    GetSettles(s, key, order);
    if got.worker.Decided? {
      RestWrites(got);
    }
  }

  /** A request for a policy that is gone changes nothing when another policy is active or none is left. */
  lemma PassStops(s: State, key: Key, order: seq<string>)
    requires s.worker.Idle? && Names(order, s, key.ns) && key !in s.policies
    requires order == [] || GetActive(Items(order, s, key.ns)).Some?
    ensures Pass(s, key, order) == s
  {
  }

  /** The quota is claimed before the verdict: a refused claim writes nothing and re-adds the request, and whoever is
      told that it is active has its quota. */
  lemma ClaimsBeforeVerdict(s: State, key: Key, order: seq<string>)
    requires Names(order, s, key.ns)
    ensures var t := Pass(s, key, order);
            && (IsRefused(s, key, order) ==> t == s.(worker := Idle, transit := s.transit + {key}))
            && forall k :: Written(s, key, order) == Some(k) && t.policies[k].ready == Active
                           && !IsRefused(s, key, order) ==>
                             QuotaGood(t, k)
  {
    var got := ApplyGet(s.(worker := Listed(key, Items(order, s, key.ns))));
    GetSettles(s, key, order);
    if got.worker.Decided? {
      RestWrites(got);
      RestClaims(got);
    }
  }

  lemma PassKeepsPending(s: State, key: Key, order: seq<string>)
    requires Names(order, s, key.ns)
    ensures s.transit <= Pass(s, key, order).transit && Pass(s, key, order).queue == s.queue
  {
    var got := ApplyGet(s.(worker := Listed(key, Items(order, s, key.ns))));
    GetSettles(s, key, order);
    if got.worker.Decided? {
      RestKeepsPending(got);
    }
  }

  lemma RestKeepsPending(got: State)
    requires got.worker.Decided?
    ensures got.transit <= Rest(got).transit && Rest(got).queue == got.queue
  {
  }

  lemma RestClaims(got: State)
    requires got.worker.Decided? && !got.worker.quotaDone
    requires var k := Key(got.worker.key.ns, got.worker.target); k in got.policies && got.policies[k] == got.worker.copy
    ensures var k := Key(got.worker.key.ns, got.worker.target);
            && (Wanted(got.worker) == Active && !Claimable(got, k) ==>
                  Rest(got) == got.(worker := Idle, transit := got.transit + {got.worker.key}))
            && (Wanted(got.worker) == Active && Claimable(got, k) ==> QuotaGood(Rest(got), k))
  {
  }

  lemma FirstActiveIs(items: seq<Item>, i: nat)
    requires i < |items| && items[i].policy.ready == Active
    requires forall j :: 0 <= j < i ==> items[j].policy.ready != Active
    ensures GetActive(items) == Some(items[i].name)
  {
    var active := GetActive(items);
    var j :| 0 <= j < |items| && items[j].name == active.value && items[j].policy.ready == Active
             && forall h :: 0 <= h < j ==> items[h].policy.ready != Active;
  }

  lemma FirstActiveIndex(items: seq<Item>, name: string) returns (i: nat)
    requires GetActive(items) == Some(name)
    ensures i < |items| && items[i].name == name && items[i].policy.ready == Active
    ensures forall j :: 0 <= j < i ==> items[j].policy.ready != Active
  {
    i :| 0 <= i < |items| && items[i].name == name && items[i].policy.ready == Active
         && forall j :: 0 <= j < i ==> items[j].policy.ready != Active;
  }

  ghost function ActiveIn(s: State, ns: string): set<Key> {
    set k | k in s.policies && k.ns == ns && s.policies[k].ready == Active
  }

  lemma NoneActiveListed(s: State, ns: string, order: seq<string>)
    requires ListOrder(order, s, ns)
    ensures ActiveIn(s, ns) == {} <==> GetActive(Items(order, s, ns)).None?
  {
    var items := Items(order, s, ns);
    if a :| a in ActiveIn(s, ns) {
      var j :| 0 <= j < |items| && items[j].name == a.name;
      assert Key(ns, items[j].name) == a;
    } else {
      forall i | 0 <= i < |items| ensures items[i].policy.ready != Active {
        assert Key(ns, items[i].name) !in ActiveIn(s, ns);
      }
    }
  }

  lemma FirstStaysActive(s: State, t: State, key: Key, order: seq<string>) returns (first: Key)
    requires ListOrder(order, s, key.ns) && Wrote(s, t, key, order) && GetActive(Items(order, s, key.ns)).Some?
    ensures first in ActiveIn(t, key.ns) && ActiveIn(t, key.ns) <= ActiveIn(s, key.ns)
  {
    var items := Items(order, s, key.ns);
    var i := FirstActiveIndex(items, GetActive(items).value);
    first := Key(key.ns, items[i].name);
    assert first in ActiveIn(s, key.ns);
    forall k | k in ActiveIn(t, key.ns) ensures k in ActiveIn(s, key.ns) {
      assert k == Key(key.ns, k.name);
    }
  }

  /** No pass takes the number of active policies from one or more to none, or raises it above what it was; from none,
      a pass in a namespace that has a policy gives exactly one, unless something else controls that policy's quota. */
  lemma PassRepairsCount(s: State, key: Key, order: seq<string>)
    requires ListOrder(order, s, key.ns)
    ensures var n, m := |ActiveIn(s, key.ns)|, |ActiveIn(Pass(s, key, order), key.ns)|;
            && (n >= 1 ==> 1 <= m <= n)
            && (n == 0 && order != [] ==> m == if Claimable(s, Target(s, key, order)) then 1 else 0)
  {
    var t := Pass(s, key, order);
    PassWrites(s, key, order);
    NoneActiveListed(s, key.ns, order);
    if ActiveIn(s, key.ns) != {} {
      var first := FirstStaysActive(s, t, key, order);
      SubsetSize(ActiveIn(t, key.ns), ActiveIn(s, key.ns));
      SubsetSize({first}, ActiveIn(t, key.ns));
    } else if order != [] {
      assert ActiveIn(t, key.ns) == if IsRefused(s, key, order) then {} else {Written(s, key, order).value};
    }
  }

  // ----- A sweep over all policies -----

  function Sweep(s: State, ns: string, requests: seq<string>, order: seq<string>): State
    requires Names(order, s, ns)
    decreases |requests|
  {
    if requests == [] then s else Sweep(Pass(s, Key(ns, requests[0]), order), ns, requests[1..], order)
  }

  lemma KeepsOrder(s: State, t: State, ns: string, order: seq<string>)
    requires ListOrder(order, s, ns) && t.policies.Keys == s.policies.Keys
    ensures ListOrder(order, t, ns)
  {
    var items, items' := Items(order, s, ns), Items(order, t, ns);
    forall k | k in s.policies && k.ns == ns ensures exists i :: 0 <= i < |items'| && items'[i].name == k.name {
      var i :| 0 <= i < |items| && items[i].name == k.name;
      assert items'[i].name == k.name;
    }
    forall i, j | 0 <= i < j < |items'| ensures items'[i].name != items'[j].name {
      assert items[i].name != items[j].name;
    }
  }

  lemma KeepsFirst(s: State, t: State, key: Key, order: seq<string>, winner: string)
    requires ListOrder(order, s, key.ns) && Wrote(s, t, key, order)
    requires GetActive(Items(order, s, key.ns)) == Some(winner)
    ensures GetActive(Items(order, t, key.ns)) == Some(winner)
  {
    var items, items' := Items(order, s, key.ns), Items(order, t, key.ns);
    var i := FirstActiveIndex(items, winner);
    forall j | 0 <= j < i ensures items'[j].policy.ready != Active {
      assert items[j].name != items[i].name && items[j] == Item(order[j], s.policies[Key(key.ns, order[j])]);
    }
    assert items[i] == Item(order[i], s.policies[Key(key.ns, order[i])]);
    FirstActiveIs(items', i);
  }

  ghost predicate SweptAround(s: State, t: State, ns: string, requests: seq<string>, winner: string) {
    && t.policies.Keys == s.policies.Keys
    && forall k :: k in s.policies && k.ns == ns ==>
                     t.policies[k].ready
                     == if k.name in requests then VerdictFor(Some(winner), k.name) else s.policies[k].ready
  }

  lemma PassAroundWinner(s: State, t: State, key: Key, order: seq<string>, winner: string)
    requires ListOrder(order, s, key.ns) && Wrote(s, t, key, order)
    requires GetActive(Items(order, s, key.ns)) == Some(winner)
    ensures SweptAround(s, t, key.ns, [key.name], winner)
  {
    var i := FirstActiveIndex(Items(order, s, key.ns), winner);
    assert s.policies[Key(key.ns, winner)].ready == Active;
    forall k | k in s.policies && k.ns == key.ns && k.name == key.name ensures k == key {
    }
  }

  lemma {:induction false} SweepAroundWinner(s: State, ns: string, requests: seq<string>, order: seq<string>,
                                             winner: string)
    requires ListOrder(order, s, ns)
    requires GetActive(Items(order, s, ns)) == Some(winner)
    ensures SweptAround(s, Sweep(s, ns, requests, order), ns, requests, winner)
    decreases |requests|
  {
    if requests != [] {
      var key := Key(ns, requests[0]);
      var t := Pass(s, key, order);
      PassWrites(s, key, order);
      KeepsOrder(s, t, ns, order);
      KeepsFirst(s, t, key, order, winner);
      PassAroundWinner(s, t, key, order, winner);
      SweepAroundWinner(t, ns, requests[1..], order, winner);
    }
  }

  /** The first request whose pass turns to a policy that can claim its quota, or the number of requests. */
  function FirstServed(s: State, ns: string, requests: seq<string>, order: seq<string>): (at: nat)
    ensures at <= |requests|
    ensures at < |requests| ==> order != [] && Claimable(s, Target(s, Key(ns, requests[at]), order))
    ensures at == |requests| && order != [] ==> forall r <- requests :: !Claimable(s, Target(s, Key(ns, r), order))
    decreases |requests|
  {
    if requests == [] || (order != [] && Claimable(s, Target(s, Key(ns, requests[0]), order))) then 0
    else 1 + FirstServed(s, ns, requests[1..], order)
  }

  /** The request from which on a sweep knows its winner. */
  function DecidedAt(s: State, ns: string, requests: seq<string>, order: seq<string>): (at: nat)
    requires Names(order, s, ns)
    ensures at <= |requests|
  {
    if GetActive(Items(order, s, ns)).Some? then 0 else FirstServed(s, ns, requests, order)
  }

  /** The policy a sweep leaves active: the first active one in list order; if none was active, the one the first
      request that can be served turns to. */
  function Winner(s: State, ns: string, requests: seq<string>, order: seq<string>): Option<string>
    requires Names(order, s, ns)
  {
    var active := GetActive(Items(order, s, ns));
    var at := FirstServed(s, ns, requests, order);
    if active.Some? then active
    else if at < |requests| then Some(Target(s, Key(ns, requests[at]), order).name)
    else None
  }

  lemma FirstPassElects(s: State, t: State, key: Key, order: seq<string>, winner: string)
    requires ListOrder(order, s, key.ns) && Wrote(s, t, key, order) && order != []
    requires GetActive(Items(order, s, key.ns)).None?
    requires Written(s, key, order) == Some(Key(key.ns, winner)) && !IsRefused(s, key, order)
    ensures GetActive(Items(order, t, key.ns)) == Some(winner)
  {
    var items := Items(order, s, key.ns);
    var i :| 0 <= i < |items| && items[i].name == winner;
    forall j | 0 <= j < i ensures Items(order, t, key.ns)[j].policy.ready != Active {
      assert items[j].name != items[i].name && items[j] == Item(order[j], s.policies[Key(key.ns, order[j])]);
    }
    FirstActiveIs(Items(order, t, key.ns), i);
  }

  lemma {:induction false} ServedAlike(s: State, t: State, ns: string, requests: seq<string>, order: seq<string>)
    requires t.policies.Keys == s.policies.Keys && forall k :: Claimable(t, k) <==> Claimable(s, k)
    ensures FirstServed(t, ns, requests, order) == FirstServed(s, ns, requests, order)
    decreases |requests|
  {
    if requests != [] {
      ServedAlike(s, t, ns, requests[1..], order);
    }
  }

  /** The winner is active, whoever else was requested once it was known is inactive in its favour, and all others keep
      their verdicts; without a winner nothing changes. */
  ghost predicate SweptTo(s: State, t: State, ns: string, informed: seq<string>, winner: Option<string>) {
    && t.policies.Keys == s.policies.Keys
    && forall k :: k in s.policies && k.ns == ns ==>
                     t.policies[k].ready
                     == if winner.None? then s.policies[k].ready
                        else if k.name == winner.value then Active
                        else if k.name in informed then Inactive(winner.value)
                        else s.policies[k].ready
  }

  /** A pass that finds nothing active and cannot claim changes no verdict. */
  lemma RefusedPassChangesNothing(s: State, t: State, key: Key, order: seq<string>)
    requires ListOrder(order, s, key.ns) && Wrote(s, t, key, order) && ListOrder(order, t, key.ns)
    requires GetActive(Items(order, s, key.ns)).None?
    requires order != [] ==> !Claimable(s, Target(s, key, order))
    ensures GetActive(Items(order, t, key.ns)).None?
    ensures forall k :: k in s.policies ==> t.policies[k].ready == s.policies[k].ready
  {
    assert key in s.policies ==> order != [];
    NoneActiveListed(s, key.ns, order);
    NoneActiveListed(t, key.ns, order);
  }

  /** Exactly what a sweep of any requests makes of any verdicts. */
  lemma {:induction false} SweepOutcome(s: State, ns: string, requests: seq<string>, order: seq<string>)
    requires ListOrder(order, s, ns)
    ensures SweptTo(s, Sweep(s, ns, requests, order), ns, requests[DecidedAt(s, ns, requests, order)..],
                    Winner(s, ns, requests, order))
    decreases |requests|
  {
    var active := GetActive(Items(order, s, ns));
    if active.Some? {
      ActiveSweep(s, ns, requests, order);
    } else if requests != [] {
      var key := Key(ns, requests[0]);
      var t := Pass(s, key, order);
      PassWrites(s, key, order);
      KeepsOrder(s, t, ns, order);
      ServedAlike(s, t, ns, requests[1..], order);
      if order != [] && Claimable(s, Target(s, key, order)) {
        ServedPass(s, t, key, order);
        SweepAroundWinner(t, ns, requests[1..], order, Target(s, key, order).name);
        ServedSweep(s, t, Sweep(t, ns, requests[1..], order), ns, requests, order);
      } else {
        RefusedPassChangesNothing(s, t, key, order);
        SweepOutcome(t, ns, requests[1..], order);
        RefusedSweep(s, t, Sweep(t, ns, requests[1..], order), ns, requests, order);
      }
    }
  }

  lemma ActiveSweep(s: State, ns: string, requests: seq<string>, order: seq<string>)
    requires ListOrder(order, s, ns) && GetActive(Items(order, s, ns)).Some?
    ensures SweptTo(s, Sweep(s, ns, requests, order), ns, requests, GetActive(Items(order, s, ns)))
  {
    var winner := GetActive(Items(order, s, ns)).value;
    SweepAroundWinner(s, ns, requests, order, winner);
    var i := FirstActiveIndex(Items(order, s, ns), winner);
    assert s.policies[Key(ns, winner)].ready == Active;
  }

  lemma RefusedSweep(s: State, t: State, u: State, ns: string, requests: seq<string>, order: seq<string>)
    requires Names(order, s, ns) && Names(order, t, ns) && requests != []
    requires GetActive(Items(order, s, ns)).None? && GetActive(Items(order, t, ns)).None?
    requires order != [] ==> !Claimable(s, Target(s, Key(ns, requests[0]), order))
    requires t.policies.Keys == s.policies.Keys
    requires forall k :: k in s.policies ==> t.policies[k].ready == s.policies[k].ready
    requires FirstServed(t, ns, requests[1..], order) == FirstServed(s, ns, requests[1..], order)
    requires SweptTo(t, u, ns, requests[1..][DecidedAt(t, ns, requests[1..], order)..],
                     Winner(t, ns, requests[1..], order))
    ensures SweptTo(s, u, ns, requests[DecidedAt(s, ns, requests, order)..], Winner(s, ns, requests, order))
  {
    var at := FirstServed(t, ns, requests[1..], order);
    assert FirstServed(s, ns, requests, order) == 1 + at;
    assert requests[1 + at..] == requests[1..][at..];
  }

  lemma ServedPass(s: State, t: State, key: Key, order: seq<string>)
    requires ListOrder(order, s, key.ns) && Wrote(s, t, key, order) && order != []
    requires GetActive(Items(order, s, key.ns)).None? && Claimable(s, Target(s, key, order))
    ensures GetActive(Items(order, t, key.ns)) == Some(Target(s, key, order).name)
    ensures forall k :: k in s.policies ==>
                          t.policies[k].ready == if k == Target(s, key, order) then Active else s.policies[k].ready
  {
    FirstPassElects(s, t, key, order, Target(s, key, order).name);
  }

  lemma ServedSweep(s: State, t: State, u: State, ns: string, requests: seq<string>, order: seq<string>)
    requires Names(order, s, ns) && order != [] && requests != [] && t.policies.Keys == s.policies.Keys
    requires var target := Target(s, Key(ns, requests[0]), order);
             && (forall k :: k in s.policies ==>
                               t.policies[k].ready == if k == target then Active else s.policies[k].ready)
             && SweptAround(t, u, ns, requests[1..], target.name)
    ensures SweptTo(s, u, ns, requests, Some(Target(s, Key(ns, requests[0]), order).name))
  {
  }

  /** A policy whose quota something else controls does not become active. */
  lemma {:induction false} UnclaimableStaysInactive(s: State, ns: string, requests: seq<string>, order: seq<string>,
                                                    k: Key)
    requires ListOrder(order, s, ns)
    requires k in s.policies && s.policies[k].ready != Active && !Claimable(s, k)
    ensures var t := Sweep(s, ns, requests, order); k in t.policies && t.policies[k].ready != Active
    decreases |requests|
  {
    if requests != [] {
      var t := Pass(s, Key(ns, requests[0]), order);
      PassWrites(s, Key(ns, requests[0]), order);
      KeepsOrder(s, t, ns, order);
      UnclaimableStaysInactive(t, ns, requests[1..], order, k);
    }
  }

  ghost predicate Covers(requests: seq<string>, order: seq<string>) {
    forall i :: 0 <= i < |order| ==> order[i] in requests
  }

  /** A sweep that requests every policy has a winner exactly when one was active or one can claim its quota. */
  lemma WinnerIff(s: State, ns: string, requests: seq<string>, order: seq<string>)
    requires ListOrder(order, s, ns) && Covers(requests, order)
    ensures Winner(s, ns, requests, order).Some?
            <==> ActiveIn(s, ns) != {} || exists k :: k in s.policies && k.ns == ns && Claimable(s, k)
    ensures Winner(s, ns, requests, order).Some? ==> Key(ns, Winner(s, ns, requests, order).value) in s.policies
  {
    var items := Items(order, s, ns);
    NoneActiveListed(s, ns, order);
    if GetActive(items).Some? {
      var i := FirstActiveIndex(items, GetActive(items).value);
    } else {
      var at := FirstServed(s, ns, requests, order);
      if at < |requests| {
        assert Key(ns, order[0]) in s.policies;
        assert Claimable(s, Target(s, Key(ns, requests[at]), order));
      }
      forall k | k in s.policies && k.ns == ns && Claimable(s, k) ensures at < |requests| {
        var i :| 0 <= i < |items| && items[i].name == k.name;
        assert order[i] in requests;
        assert Target(s, Key(ns, order[i]), order) == k;
      }
    }
  }

  /** From any verdicts, a sweep that requests every policy at least once, in any order and with any extra requests,
      leaves exactly one policy active, the winner, exactly when some policy was active at first or some policy of the
      namespace can claim its quota; otherwise none. */
  lemma SweepElects(s: State, ns: string, requests: seq<string>, order: seq<string>)
    requires ListOrder(order, s, ns) && Covers(requests, order)
    ensures var winner := Winner(s, ns, requests, order);
            ActiveIn(Sweep(s, ns, requests, order), ns) == if winner.Some? then {Key(ns, winner.value)} else {}
    ensures |ActiveIn(Sweep(s, ns, requests, order), ns)| == 1
            <==> ActiveIn(s, ns) != {} || exists k :: k in s.policies && k.ns == ns && Claimable(s, k)
  {
    var winner := Winner(s, ns, requests, order);
    var t := Sweep(s, ns, requests, order);
    SweepOutcome(s, ns, requests, order);
    WinnerIff(s, ns, requests, order);
    NoneActiveListed(s, ns, order);
    forall k | k in ActiveIn(t, ns) ensures winner.Some? && k == Key(ns, winner.value) {
      if GetActive(Items(order, s, ns)).Some? {
        ListedSomewhere(s, ns, requests, order, k);
      } else {
        assert k !in ActiveIn(s, ns);
      }
    }
  }

  lemma ListedSomewhere(s: State, ns: string, requests: seq<string>, order: seq<string>, k: Key)
    requires ListOrder(order, s, ns) && Covers(requests, order) && k in s.policies && k.ns == ns
    ensures k.name in requests
  {
    var items := Items(order, s, ns);
    var i :| 0 <= i < |items| && items[i].name == k.name;
    assert order[i] == k.name;
  }

  /** The winner of the sweep is active and every other policy inactive in its favour. */
  ghost predicate WonBy(s: State, t: State, ns: string, winner: string) {
    && t.policies.Keys == s.policies.Keys
    && forall k :: k in s.policies && k.ns == ns ==>
                     t.policies[k].ready == if k.name == winner then Active else Inactive(winner)
  }

  /** When the winner is known from the first request on, as it is where one was active, every other policy ends
      inactive in its favour. */
  lemma SweepInforms(s: State, ns: string, requests: seq<string>, order: seq<string>)
    requires ListOrder(order, s, ns) && Covers(requests, order)
    requires Winner(s, ns, requests, order).Some? && DecidedAt(s, ns, requests, order) == 0
    ensures WonBy(s, Sweep(s, ns, requests, order), ns, Winner(s, ns, requests, order).value)
  {
    SweepOutcome(s, ns, requests, order);
    forall k | k in s.policies && k.ns == ns ensures k.name in requests {
      ListedSomewhere(s, ns, requests, order, k);
    }
  }
}
