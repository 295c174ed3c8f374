/** Safety of the policy protocol over every interleaving: one active policy a namespace, and an active policy stays
    active until it is deleted. */
module PolicySafety {
  import opened Keys
  import opened Wrappers
  import opened PolicyProtocol

  ghost predicate IdsIssued(s: State) {
    forall k :: k in s.policies ==> s.policies[k].uid < s.clock && s.policies[k].rv < s.clock
  }

  /** Whatever is active in the worker's namespace was already active when the pass listed it, because nobody else
      writes the condition. */
  ghost predicate SnapshotSound(s: State) {
    match s.worker
    case Idle => true
    case Started(_) => true
    case Listed(key, items) =>
      forall k :: IsActive(s, k) && k.ns == key.ns ==>
                    && GetActive(items) == Some(k.name)
                    && (forall i :: 0 <= i < |items| && items[i].name == k.name ==>
                          items[i].policy.uid == s.policies[k].uid)
    case Decided(key, active, target, copy, _) =>
      forall k :: IsActive(s, k) && k.ns == key.ns ==>
                    && active == Some(k.name)
                    && (target == k.name ==> copy.uid == s.policies[k].uid)
  }

  ghost predicate Safe(s: State) {
    AtMostOneActive(s) && IdsIssued(s) && SnapshotSound(s)
  }

  /** The object that was under key k is still there. */
  predicate SameObject(s: State, k: Key, uid: nat) {
    k in s.policies && s.policies[k].uid == uid
  }

  lemma ListingFindsActive(items: seq<Item>, s: State, k: Key)
    requires IsListing(items, s.policies, k.ns) && AtMostOneActive(s) && IsActive(s, k)
    ensures GetActive(items) == Some(k.name)
    ensures forall i :: 0 <= i < |items| && items[i].name == k.name ==> items[i].policy.uid == s.policies[k].uid
  {
    var i :| 0 <= i < |items| && items[i].name == k.name;
    assert Key(k.ns, items[i].name) == k;
    var active := GetActive(items);
    var j :| 0 <= j < |items| && items[j].name == active.value && items[j].policy.ready == Active;
    assert IsActive(s, Key(k.ns, items[j].name));
    forall i | 0 <= i < |items| && items[i].name == k.name ensures items[i].policy.uid == s.policies[k].uid {
      assert Key(k.ns, items[i].name) == k;
    }
  }

  lemma ListKeepsSafe(s: State, items: seq<Item>)
    requires Safe(s) && Enabled(s, List(items))
    ensures Safe(Apply(s, List(items)))
  {
    forall k | IsActive(s, k) && k.ns == s.worker.key.ns
      ensures GetActive(items) == Some(k.name)
      ensures forall i :: 0 <= i < |items| && items[i].name == k.name ==> items[i].policy.uid == s.policies[k].uid
    {
      ListingFindsActive(items, s, k);
    }
  }

  lemma WriteStatusKeepsSafe(s: State, acknowledged: bool)
    requires Safe(s) && Enabled(s, WriteStatus(acknowledged))
    ensures Safe(Apply(s, WriteStatus(acknowledged)))
  {
  }

  lemma ReadKeepsSafe(s: State, step: Step)
    requires Safe(s) && Enabled(s, step) && (step.Take? || step.Get? || step.WriteQuota? || step.ApiError?)
    ensures Safe(Apply(s, step))
  {
  }

  lemma OutsideKeepsSafe(s: State, step: Step)
    requires Safe(s) && Enabled(s, step)
    requires !step.Take? && !step.List? && !step.Get? && !step.WriteQuota? && !step.WriteStatus? && !step.ApiError?
    ensures Safe(Apply(s, step))
  {
  }

  lemma StepKeepsSafe(s: State, step: Step)
    requires Safe(s) && Enabled(s, step)
    ensures Safe(Apply(s, step))
  {
    match step
    case List(items) => ListKeepsSafe(s, items);
    case WriteStatus(acknowledged) => WriteStatusKeepsSafe(s, acknowledged);
    case Take(_) => ReadKeepsSafe(s, step);
    case Get => ReadKeepsSafe(s, step);
    case WriteQuota(_) => ReadKeepsSafe(s, step);
    case ApiError => ReadKeepsSafe(s, step);
    case _ => OutsideKeepsSafe(s, step);
  }

  /** In every reachable state, whatever the interleaving, no namespace has two active policies. */
  lemma {:induction false} NeverTwoActive(s: State, steps: seq<Step>)
    requires Init(s) && IsRun(s, steps)
    ensures AtMostOneActive(After(s, steps))
  {
    RunKeepsSafe(s, steps);
  }

  lemma {:induction false} RunKeepsSafe(s: State, steps: seq<Step>)
    requires Safe(s) && IsRun(s, steps)
    ensures Safe(After(s, steps))
    decreases |steps|
  {
    if steps != [] {
      StepKeepsSafe(s, steps[0]);
      RunKeepsSafe(Apply(s, steps[0]), steps[1..]);
    }
  }

  lemma StepKeepsActive(s: State, step: Step, k: Key)
    requires Safe(s) && Enabled(s, step) && IsActive(s, k)
    ensures SameObject(Apply(s, step), k, s.policies[k].uid) ==> IsActive(Apply(s, step), k)
  {
  }

  /** Once gone, an object never comes back: a policy created later under the same key has a new uid. */
  lemma {:induction false} GoneStaysGone(s: State, steps: seq<Step>, k: Key, uid: nat)
    requires Safe(s) && IsRun(s, steps) && uid < s.clock && !SameObject(s, k, uid)
    ensures !SameObject(After(s, steps), k, uid)
    decreases |steps|
  {
    if steps != [] {
      StepKeepsSafe(s, steps[0]);
      GoneStaysGone(Apply(s, steps[0]), steps[1..], k, uid);
    }
  }

  /** An active policy stays active through any run in which its object is not deleted. */
  lemma {:induction false} ActiveUntilDeleted(s: State, steps: seq<Step>, k: Key)
    requires Safe(s) && IsRun(s, steps) && IsActive(s, k)
    ensures SameObject(After(s, steps), k, s.policies[k].uid) ==> IsActive(After(s, steps), k)
    decreases |steps|
  {
    if steps != [] {
      var t := Apply(s, steps[0]);
      StepKeepsSafe(s, steps[0]);
      StepKeepsActive(s, steps[0], k);
      if SameObject(t, k, s.policies[k].uid) {
        ActiveUntilDeleted(t, steps[1..], k);
      } else {
        GoneStaysGone(t, steps[1..], k, s.policies[k].uid);
      }
    }
  }

  // ----- The creator of the default policy -----

  ghost predicate NoPolicyIn(s: State, ns: string) {
    forall k :: k in s.policies ==> k.ns != ns
  }

  /** Step m is the creator's last list of the run, it found no policy in the creator's namespace, and the operator was
      not restarted since. */
  ghost predicate ListedNone(s: State, steps: seq<Step>, m: nat)
    requires IsRun(s, steps)
  {
    && m < |steps| && steps[m] == CreatorList && NeverAgain(steps[m + 1..])
    && IsRun(s, steps[..m]) && NoPolicyIn(After(s, steps[..m]), s.installNs)
  }

  ghost predicate NeverAgain(steps: seq<Step>) {
    forall step :: step in steps ==> step != CreatorList && step != Restart
  }

  lemma StepMovesCreator(s: State, step: Step)
    requires Enabled(s, step)
    ensures Apply(s, step).installNs == s.installNs
    ensures s.creator.Resting? && !Apply(s, step).creator.Resting? ==>
              step == CreatorList && NoPolicyIn(s, s.installNs)
    ensures !s.creator.Resting? && !Apply(s, step).creator.Resting? ==> step != CreatorList && step != Restart
  {
  }

  lemma {:induction false} LastList(s: State, steps: seq<Step>) returns (m: Option<nat>)
    requires IsRun(s, steps) && !After(s, steps).creator.Resting?
    ensures m.Some? ==> ListedNone(s, steps, m.value)
    ensures m.None? ==> !s.creator.Resting? && NeverAgain(steps)
    decreases |steps|
  {
    m := None;
    if steps != [] {
      StepMovesCreator(s, steps[0]);
      var later := LastList(Apply(s, steps[0]), steps[1..]);
      if later.Some? {
        m := Some(later.value + 1);
        assert steps[..m.value][1..] == steps[1..][..later.value];
        assert steps[m.value + 1..] == steps[1..][later.value + 1..];
      } else if s.creator.Resting? {
        m := Some(0);
        assert steps[..0] == [];
      } else {
        assert forall step :: step in steps ==> step == steps[0] || step in steps[1..];
      }
    }
  }

  /** Whenever the creator is on its way to create, its last list, in the same process, found no policy. */
  lemma CreatorSawNone(s: State, steps: seq<Step>) returns (m: nat)
    requires s.creator.Resting? && IsRun(s, steps) && !After(s, steps).creator.Resting?
    ensures ListedNone(s, steps, m)
  {
    var last := LastList(s, steps);
    m := last.value;
  }

  /** It creates nothing but the policy called cluster in its own namespace, as a new object without a verdict, and only
      where that was missing. */
  lemma CreatorCreates(s: State)
    requires Enabled(s, CreatorCreate)
    ensures var t := Apply(s, CreatorCreate);
            var key := Key(s.installNs, "cluster");
            && t.creator.Resting? && t.quotas == s.quotas && t.worker == s.worker
            && (key in s.policies ==> t.policies == s.policies && t.transit == s.transit)
            && (key !in s.policies ==>
                  && t.policies == s.policies[key := Policy(s.clock, s.clock, Unset)] && key in t.transit)
  {
  }
}
