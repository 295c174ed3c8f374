/** Gate safety over whole runs: every provider object in the cluster, and every Ready status, goes back to a pass that
    found the gate open for the object's own namespace. */
module GateRuns {
  import opened Wrappers
  import opened Access
  import opened Conditions
  import opened ProviderResource
  import opened Gate

  datatype Id = Id(kind: ObjectKind, ns: string, name: string)

  /** One reconcile pass of one object, with everything it read. */
  datatype Record = Record(id: Id, request: Request, g: GateAnswers)

  /** What is remembered: objects created, provider objects removed and passes made. */
  datatype Entry = Created(id: Id) | Removed(id: Id) | Passed(record: Record)

  datatype System = System(statuses: map<Id, ObjectStatus>, providerObjects: set<Id>, history: seq<Entry>)

  /** Users create and delete DBaaS objects and providers' operators and the garbage collector remove provider objects;
      everything else a pass reads is part of its answers. */
  datatype Event =
    | Create(id: Id)
    | Delete(id: Id)
    | RemoveProviderObject(id: Id)
    | Reconcile(record: Record)

  const NEW_STATUS := ObjectStatus([], NoPhase, "")

  /** A pass asks for the object's own namespace. The object's own read and writes meet the stored object: a missing
      object is not found and takes no status. */
  predicate Answered(s: System, record: Record) {
    && record.request.namespace == record.id.ns
    && (record.g.fetch.None? ==> record.id in s.statuses)
    && (record.id !in s.statuses ==> record.g.gateWrite.Some? && record.g.pass.statusWrite.Some?)
  }

  predicate Enabled(s: System, e: Event) {
    match e
    case Create(id) => id !in s.statuses
    case Delete(id) => id in s.statuses
    case RemoveProviderObject(_) => true
    case Reconcile(record) => Answered(s, record)
  }

  /** A call that the API server accepted takes effect. */
  function Take(s: System, id: Id, call: Call): System {
    match call
    case CreateOrUpdate(error) => if error.None? then s.(providerObjects := s.providerObjects + {id}) else s
    case UpdateStatus(status, error) => if error.None? then s.(statuses := s.statuses[id := status]) else s
  }

  function TakeAll(s: System, id: Id, calls: seq<Call>): System
    decreases |calls|
  {
    if calls == [] then s else TakeAll(Take(s, id, calls[0]), id, calls[1..])
  }

  function StatusOf(s: System, id: Id): ObjectStatus {
    if id in s.statuses then s.statuses[id] else NEW_STATUS
  }

  function Next(s: System, e: Event): System {
    match e
    case Create(id) => s.(statuses := s.statuses[id := NEW_STATUS], history := s.history + [Created(id)])
    case Delete(id) => s.(statuses := s.statuses - {id})
    case RemoveProviderObject(id) =>
      s.(providerObjects := s.providerObjects - {id}, history := s.history + [Removed(id)])
    case Reconcile(record) =>
      var outcome := PassOf(record.id.kind, StatusOf(s, record.id), record.request, record.g);
      TakeAll(s, record.id, outcome.calls).(history := s.history + [Passed(record)])
  }

  ghost predicate IsRun(s: System, es: seq<Event>)
    decreases |es|
  {
    es == [] || (Enabled(s, es[0]) && IsRun(Next(s, es[0]), es[1..]))
  }

  function After(s: System, es: seq<Event>): System
    decreases |es|
  {
    if es == [] then s else After(Next(s, es[0]), es[1..])
  }

  // ----- The invariant -----

  /** A pass of this object, for its own namespace, that found the gate open. */
  predicate FoundOpen(entry: Entry, id: Id) {
    && entry.Passed? && entry.record.id == id && entry.record.request.namespace == id.ns
    && GateOpen(id.kind, entry.record.request, entry.record.g)
  }

  /** Such a pass that also wrote the provider object and read back that the provider is in sync. */
  predicate Synced(entry: Entry, id: Id) {
    && FoundOpen(entry, id)
    && entry.record.g.pass.provider.None? && entry.record.g.pass.createOrUpdate.None?
    && entry.record.g.pass.parsed.Some?
    && IsTrue(entry.record.g.pass.parsed.value.conditions, SyncKind(id.kind))
  }

  ghost predicate NoneSince(history: seq<Entry>, i: nat, reset: Entry) {
    forall j :: i < j < |history| ==> history[j] != reset
  }

  /** A pass that found the gate open since the provider object was last removed. */
  ghost predicate OpenSinceRemoved(history: seq<Entry>, id: Id) {
    exists i :: 0 <= i < |history| && FoundOpen(history[i], id) && NoneSince(history, i, Removed(id))
  }

  /** A synced pass of this very object, not of an earlier one under its name. */
  ghost predicate SyncedSinceCreated(history: seq<Entry>, id: Id) {
    exists i :: 0 <= i < |history| && Synced(history[i], id) && NoneSince(history, i, Created(id))
  }

  ghost predicate ObjectsJustified(s: System) {
    forall id :: id in s.providerObjects ==> OpenSinceRemoved(s.history, id)
  }

  ghost predicate IsReady(s: System, id: Id) {
    id in s.statuses && IsTrue(s.statuses[id].conditions, ReadyKind(id.kind))
  }

  ghost predicate ReadyJustified(s: System) {
    forall id :: IsReady(s, id) ==> SyncedSinceCreated(s.history, id)
  }

  // ----- What the calls of a pass do -----

  lemma QuietEffect(s: System, id: Id, outcome: Outcome, error: Option<ApiError>)
    requires outcome == Quietly(outcome.status) || outcome == Saying(outcome.status, error)
    ensures var t := TakeAll(s, id, outcome.calls);
            && t.providerObjects == s.providerObjects && t.history == s.history
            && t.statuses == if outcome.calls != [] && error.None? then s.statuses[id := outcome.status] else s.statuses
  {
    if outcome.calls != [] {
      assert outcome.calls[1..] == [];
    }
  }

  lemma ProvidingEffect(s: System, id: Id, status: ObjectStatus, g: GateAnswers)
    ensures var t := TakeAll(s, id, Providing(id.kind, status, g).calls);
            && t.history == s.history
            && t.providerObjects <= s.providerObjects + {id}
            && (t.statuses == s.statuses || t.statuses == s.statuses[id := FinalStatus(id.kind, status, g.pass)])
  {
    var calls := Calls(id.kind, status, g.pass);
    var last := UpdateStatus(FinalStatus(id.kind, status, g.pass), g.pass.statusWrite);
    assert [last][1..] == [];
    var before := if g.pass.provider.Some? then s else Take(s, id, calls[0]);
    assert g.pass.provider.None? ==> calls[1..] == [last];
    assert TakeAll(before, id, [last]) == Take(before, id, last);
    assert TakeAll(s, id, calls) == TakeAll(before, id, [last]);
  }

  /** A pass only adds its own provider object, and only with its gate open. */
  lemma PassAddsObject(s: System, record: Record, x: Id)
    ensures x in Next(s, Reconcile(record)).providerObjects && x !in s.providerObjects ==>
              x == record.id && GateOpen(record.id.kind, record.request, record.g)
  {
    var id := record.id;
    GateDecides(id.kind, StatusOf(s, id), record.request, record.g);
    if GateOpen(id.kind, record.request, record.g) {
      ProvidingEffect(s, id, StatusOf(s, id), record.g);
    } else {
      QuietEffect(s, id, PassOf(id.kind, StatusOf(s, id), record.request, record.g), record.g.gateWrite);
    }
  }

  /** A pass only makes its own object ready, and only as a synced one. */
  lemma PassMakesReady(s: System, record: Record, x: Id)
    requires Answered(s, record)
    ensures IsReady(Next(s, Reconcile(record)), x) && !IsReady(s, x) ==> Synced(Passed(record), x)
  {
    var id := record.id;
    var status := StatusOf(s, id);
    GateDecides(id.kind, status, record.request, record.g);
    if GateOpen(id.kind, record.request, record.g) {
      ProvidingEffect(s, id, status, record.g);
      ReadyWrittenIff(id.kind, status, record.g.pass);
    } else {
      QuietEffect(s, id, PassOf(id.kind, status, record.request, record.g), record.g.gateWrite);
    }
  }

  lemma HistoryGrows(s: System, record: Record)
    ensures Next(s, Reconcile(record)).history == s.history + [Passed(record)]
  {
    var id := record.id;
    GateDecides(id.kind, StatusOf(s, id), record.request, record.g);
  }

  // ----- Memories last -----

  lemma OpenLasts(history: seq<Entry>, entry: Entry, id: Id)
    ensures (OpenSinceRemoved(history, id) && entry != Removed(id)) || FoundOpen(entry, id) ==>
              OpenSinceRemoved(history + [entry], id)
  {
    var after := history + [entry];
    if FoundOpen(entry, id) {
      assert FoundOpen(after[|history|], id) && NoneSince(after, |history|, Removed(id));
    } else if OpenSinceRemoved(history, id) && entry != Removed(id) {
      var i :| 0 <= i < |history| && FoundOpen(history[i], id) && NoneSince(history, i, Removed(id));
      assert FoundOpen(after[i], id) && NoneSince(after, i, Removed(id));
    }
  }

  lemma SyncLasts(history: seq<Entry>, entry: Entry, id: Id)
    ensures (SyncedSinceCreated(history, id) && entry != Created(id)) || Synced(entry, id) ==>
              SyncedSinceCreated(history + [entry], id)
  {
    var after := history + [entry];
    if Synced(entry, id) {
      assert Synced(after[|history|], id) && NoneSince(after, |history|, Created(id));
    } else if SyncedSinceCreated(history, id) && entry != Created(id) {
      var i :| 0 <= i < |history| && Synced(history[i], id) && NoneSince(history, i, Created(id));
      assert Synced(after[i], id) && NoneSince(after, i, Created(id));
    }
  }

  // ----- Every event keeps both invariants -----

  lemma StepKeepsObjectsJustified(s: System, e: Event)
    requires ObjectsJustified(s) && Enabled(s, e)
    ensures ObjectsJustified(Next(s, e))
  {
    var t := Next(s, e);
    forall x | x in t.providerObjects ensures OpenSinceRemoved(t.history, x) {
      match e
      case Create(id) => OpenLasts(s.history, Created(id), x);
      case RemoveProviderObject(id) => OpenLasts(s.history, Removed(id), x);
      case Reconcile(record) =>
        PassAddsObject(s, record, x);
        HistoryGrows(s, record);
        OpenLasts(s.history, Passed(record), x);
      case _ =>
    }
  }

  lemma StepKeepsReadyJustified(s: System, e: Event)
    requires ReadyJustified(s) && Enabled(s, e)
    ensures ReadyJustified(Next(s, e))
  {
    var t := Next(s, e);
    forall x | IsReady(t, x) ensures SyncedSinceCreated(t.history, x) {
      match e
      case Create(id) => SyncLasts(s.history, Created(id), x);
      case RemoveProviderObject(id) => SyncLasts(s.history, Removed(id), x);
      case Reconcile(record) =>
        PassMakesReady(s, record, x);
        HistoryGrows(s, record);
        SyncLasts(s.history, Passed(record), x);
      case _ =>
    }
  }

  lemma StepKeepsJustified(s: System, e: Event)
    requires ObjectsJustified(s) && ReadyJustified(s) && Enabled(s, e)
    ensures ObjectsJustified(Next(s, e)) && ReadyJustified(Next(s, e))
  {
    StepKeepsObjectsJustified(s, e);
    StepKeepsReadyJustified(s, e);
  }

  lemma {:induction false} RunKeepsJustified(s: System, es: seq<Event>)
    requires ObjectsJustified(s) && ReadyJustified(s) && IsRun(s, es)
    ensures ObjectsJustified(After(s, es)) && ReadyJustified(After(s, es))
    decreases |es|
  {
    if es != [] {
      StepKeepsJustified(s, es[0]);
      RunKeepsJustified(Next(s, es[0]), es[1..]);
    }
  }

  const EMPTY := System(map[], {}, [])

  lemma EmptySystemJustified()
    ensures ObjectsJustified(EMPTY) && ReadyJustified(EMPTY)
  {
  }

  /** After any run from an empty cluster, each provider object goes back to a pass of its object, made since the
      provider object was last removed, that found the gate open for the object's namespace; and each Ready status goes
      back to such a pass, made since the object was last created, in which the provider had reported the sync. */
  lemma {:induction false} EverythingJustified(es: seq<Event>)
    requires IsRun(EMPTY, es)
    ensures forall id :: id in After(EMPTY, es).providerObjects ==> OpenSinceRemoved(After(EMPTY, es).history, id)
    ensures forall id :: IsReady(After(EMPTY, es), id) ==> SyncedSinceCreated(After(EMPTY, es).history, id)
  {
    EmptySystemJustified();
    RunKeepsJustified(EMPTY, es);
  }

  /** What finding the gate open means for a connection or an instance: the inventory admitted the object's namespace
      and was not unready, and for an instance an active policy let it provision. */
  lemma OpenMeansAdmitted(entry: Entry, id: Id)
    requires FoundOpen(entry, id) && id.kind != InventoryObject
    ensures var g := entry.record.g;
            && g.inventory.Ok? && g.policies.Ok?
            && var inventory, active := g.inventory.value, ActivePolicy(g.policies.value);
               && RightAnswer(id.ns, inventory.home, inventory.policy, active, g.cluster, Ok(true))
               && Find(inventory.conditions, InventoryReady).Some?
               && Find(inventory.conditions, InventoryReady).value.status != False
               && (id.kind == InstanceObject ==> NothingForbids(inventory.policy, active))
  {
    var g := entry.record.g;
    var active := ActivePolicy(g.policies.value);
    ActivePolicyExists(g.policies.value);
    DecisionIsRight(id.ns, g.inventory.value.home, g.inventory.value.policy, active, g.cluster);
  }

  // ----- From an instance or a connection back through its inventory -----

  /** No stored Ready condition is Unknown. */
  ghost predicate ReadyStoredKnown(s: System) {
    forall id :: id in s.statuses ==> ReadyKnown(id.kind, s.statuses[id])
  }

  lemma StatusEffect(s: System, record: Record, x: Id)
    ensures var t := Next(s, Reconcile(record));
            var outcome := PassOf(record.id.kind, StatusOf(s, record.id), record.request, record.g);
            x in t.statuses ==>
              (x in s.statuses && t.statuses[x] == s.statuses[x]) || (x == record.id && t.statuses[x] == outcome.status)
  {
    var id := record.id;
    var status := StatusOf(s, id);
    GateDecides(id.kind, status, record.request, record.g);
    if GateOpen(id.kind, record.request, record.g) {
      ProvidingEffect(s, id, status, record.g);
    } else {
      QuietEffect(s, id, PassOf(id.kind, status, record.request, record.g), record.g.gateWrite);
    }
  }

  lemma StepKeepsReadyKnown(s: System, e: Event)
    requires ReadyStoredKnown(s)
    ensures ReadyStoredKnown(Next(s, e))
  {
    if e.Reconcile? {
      var id := e.record.id;
      forall x | x in Next(s, e).statuses ensures ReadyKnown(x.kind, Next(s, e).statuses[x]) {
        StatusEffect(s, e.record, x);
        PassReadyKnown(id.kind, StatusOf(s, id), e.record.request, e.record.g);
      }
    }
  }

  function InventoryOf(record: Record): Id {
    Id(InventoryObject, record.request.spec.inventoryRef.ns, record.request.spec.inventoryRef.name)
  }

  /** A pass of a connection or an instance that finds its inventory finds the stored one. */
  predicate ReadsTruly(s: System, e: Event) {
    e.Reconcile? && e.record.id.kind != InventoryObject && e.record.g.inventory.Ok? ==>
      var inventory := InventoryOf(e.record);
      && inventory in s.statuses
      && e.record.g.inventory.value.home == inventory.ns
      && e.record.g.inventory.value.conditions == s.statuses[inventory].conditions
  }

  ghost predicate IsTrueRun(s: System, es: seq<Event>)
    decreases |es|
  {
    es == [] || (Enabled(s, es[0]) && ReadsTruly(s, es[0]) && IsTrueRun(Next(s, es[0]), es[1..]))
  }

  /** A pass that found the gate open, after a synced pass of the very inventory it read. */
  ghost predicate Chained(history: seq<Entry>, i: nat, id: Id)
    requires i < |history|
  {
    FoundOpen(history[i], id) && SyncedSinceCreated(history[..i], InventoryOf(history[i].record))
  }

  ghost predicate ChainedSinceRemoved(history: seq<Entry>, id: Id) {
    exists i :: 0 <= i < |history| && Chained(history, i, id) && NoneSince(history, i, Removed(id))
  }

  ghost predicate ObjectsChained(s: System) {
    forall id :: id in s.providerObjects && id.kind != InventoryObject ==> ChainedSinceRemoved(s.history, id)
  }

  lemma ChainLasts(history: seq<Entry>, entry: Entry, id: Id)
    requires ChainedSinceRemoved(history, id) && entry != Removed(id)
    ensures ChainedSinceRemoved(history + [entry], id)
  {
    var after := history + [entry];
    var i :| 0 <= i < |history| && Chained(history, i, id) && NoneSince(history, i, Removed(id));
    assert after[..i] == history[..i];
    assert Chained(after, i, id) && NoneSince(after, i, Removed(id));
  }

  lemma ChainStarts(s: System, record: Record)
    requires ReadyJustified(s) && ReadyStoredKnown(s)
    requires record.id.kind != InventoryObject && ReadsTruly(s, Reconcile(record))
    requires FoundOpen(Passed(record), record.id)
    ensures ChainedSinceRemoved(s.history + [Passed(record)], record.id)
  {
    var after := s.history + [Passed(record)];
    var n := |s.history|;
    var inventory := InventoryOf(record);
    assert ReadyKnown(InventoryObject, s.statuses[inventory]);
    assert IsReady(s, inventory);
    assert after[..n] == s.history;
    assert Chained(after, n, record.id) && NoneSince(after, n, Removed(record.id));
  }

  lemma StepKeepsChained(s: System, e: Event)
    requires ReadyJustified(s) && ReadyStoredKnown(s) && ObjectsChained(s) && Enabled(s, e) && ReadsTruly(s, e)
    ensures ObjectsChained(Next(s, e))
  {
    var t := Next(s, e);
    forall x | x in t.providerObjects && x.kind != InventoryObject ensures ChainedSinceRemoved(t.history, x) {
      match e
      case Create(id) => ChainLasts(s.history, Created(id), x);
      case RemoveProviderObject(id) => ChainLasts(s.history, Removed(id), x);
      case Reconcile(record) =>
        PassAddsObject(s, record, x);
        HistoryGrows(s, record);
        if x in s.providerObjects {
          ChainLasts(s.history, Passed(record), x);
        } else {
          ChainStarts(s, record);
        }
      case _ =>
    }
  }

  lemma {:induction false} TrueRunKeepsChained(s: System, es: seq<Event>)
    requires ObjectsJustified(s) && ReadyJustified(s) && ReadyStoredKnown(s) && ObjectsChained(s) && IsTrueRun(s, es)
    ensures ObjectsChained(After(s, es)) && ReadyStoredKnown(After(s, es))
    decreases |es|
  {
    if es != [] {
      StepKeepsJustified(s, es[0]);
      StepKeepsReadyKnown(s, es[0]);
      StepKeepsChained(s, es[0]);
      TrueRunKeepsChained(Next(s, es[0]), es[1..]);
    }
  }

  /** In runs whose passes read inventories as they are stored, each provider object of a connection or an instance
      goes back to a pass that found the gate open, made since the provider object was last removed, and through the
      inventory which that pass read to an earlier synced pass of that very inventory. No stored Ready condition is
      Unknown. */
  lemma {:induction false} EverythingChained(es: seq<Event>)
    requires IsTrueRun(EMPTY, es)
    ensures forall id :: id in After(EMPTY, es).providerObjects && id.kind != InventoryObject ==>
                           ChainedSinceRemoved(After(EMPTY, es).history, id)
    ensures ReadyStoredKnown(After(EMPTY, es))
  {
    EmptySystemJustified();
    TrueRunKeepsChained(EMPTY, es);
  }

  /** Whatever the passes read, no stored Ready condition is Unknown. */
  lemma {:induction false} ReadyStaysKnown(s: System, es: seq<Event>)
    requires ReadyStoredKnown(s) && IsRun(s, es)
    ensures ReadyStoredKnown(After(s, es))
    decreases |es|
  {
    if es != [] {
      StepKeepsReadyKnown(s, es[0]);
      ReadyStaysKnown(Next(s, es[0]), es[1..]);
    }
  }

  /** A synced pass of an inventory found an active policy in the inventory's namespace. */
  lemma SyncedMeansPolicy(entry: Entry, id: Id)
    requires Synced(entry, id) && id.kind == InventoryObject
    ensures entry.record.g.policies.Ok? && ActivePolicy(entry.record.g.policies.value).Some?
  {
    ActivePolicyExists(entry.record.g.policies.value);
  }
}
