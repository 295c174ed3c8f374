/** The platform installation loop: configured platforms are reconciled in the arbitrary order of a map iteration until
    one is not complete; the status is written when it changed, and a latch remembers that everything succeeded once. */
module PlatformInstall {
  import opened Wrappers
  import opened Conditions

  datatype InstallStatus = Success | Failed | InProgress | OtherStatus(text: string)

  datatype PlatformStatus = PlatformStatus(name: string, status: InstallStatus, lastMessage: string)

  datatype CrStatus = CrStatus(conditions: seq<Condition>, platforms: seq<PlatformStatus>)

  /** Each configured platform, and whether its type has a reconciler. */
  type Config = map<string, bool>

  /** What each platform's reconciler answers in one pass. */
  type Results = map<string, Result<InstallStatus, string>>

  datatype Exit = Finished | Stopped | Aborted

  const IN_PROGRESS := Condition(PlatformReady, False, InstallationInprogress)
  const COMPLETE := Condition(PlatformReady, True, ReadyReason)

  // ----- The status list -----

  function Upsert(platforms: seq<PlatformStatus>, p: PlatformStatus): seq<PlatformStatus> {
    if platforms == [] then [p]
    else if platforms[0].name == p.name then [p] + platforms[1..]
    else [platforms[0]] + Upsert(platforms[1..], p)
  }

  function Recorded(platforms: seq<PlatformStatus>, name: string): Option<InstallStatus> {
    if platforms == [] then None
    else if platforms[0].name == name then Some(platforms[0].status)
    else Recorded(platforms[1..], name)
  }

  /** Every name once, and no message left over. */
  ghost predicate Clean(platforms: seq<PlatformStatus>) {
    && (forall i, j :: 0 <= i < j < |platforms| ==> platforms[i].name != platforms[j].name)
    && (forall i :: 0 <= i < |platforms| ==> platforms[i].lastMessage == "")
  }

  lemma {:induction false} UpsertRecords(platforms: seq<PlatformStatus>, p: PlatformStatus, name: string)
    ensures Recorded(Upsert(platforms, p), name) == if name == p.name then Some(p.status) else Recorded(platforms, name)
  {
    if platforms != [] {
      UpsertRecords(platforms[1..], p, name);
      assert Upsert(platforms, p)[1..]
          == if platforms[0].name == p.name then platforms[1..] else Upsert(platforms[1..], p);
    }
  }

  lemma {:induction false} UpsertNames(platforms: seq<PlatformStatus>, p: PlatformStatus, q: PlatformStatus)
    ensures q in Upsert(platforms, p) ==> q == p || q in platforms
  {
    if platforms != [] {
      UpsertNames(platforms[1..], p, q);
    }
  }

  lemma {:induction false} UpsertKeepsClean(platforms: seq<PlatformStatus>, p: PlatformStatus)
    requires Clean(platforms) && p.lastMessage == ""
    ensures Clean(Upsert(platforms, p))
  {
    if platforms != [] && platforms[0].name != p.name {
      UpsertKeepsClean(platforms[1..], p);
      var rest := Upsert(platforms[1..], p);
      forall i | 0 <= i < |rest| ensures rest[i].name != platforms[0].name {
        UpsertNames(platforms[1..], p, rest[i]);
      }
    }
  }

  lemma {:induction false} UpsertSplit(platforms: seq<PlatformStatus>, p: PlatformStatus, i: nat)
    requires i <= |platforms| && forall j :: 0 <= j < i ==> platforms[j].name != p.name
    ensures Upsert(platforms, p) == platforms[..i] + Upsert(platforms[i..], p)
  {
    if i > 0 {
      UpsertSplit(platforms[1..], p, i - 1);
      assert platforms[1..][i - 1..] == platforms[i..];
      assert platforms[..i] == [platforms[0]] + platforms[1..][..i - 1];
    }
  }

  /** The status under construction, whose list is updated in place. */
  class NextStatus {
    var conditions: seq<Condition>
    var platforms: seq<PlatformStatus>

    function Value(): CrStatus
      reads this
    {
      CrStatus(conditions, platforms)
    }

    constructor (status: CrStatus)
      ensures Value() == status
    {
      conditions, platforms := status.conditions, status.platforms;
    }

    method FindStatusPlatform(name: string) returns (found: Option<nat>)
      ensures found.Some? ==>
                && found.value < |platforms| && platforms[found.value].name == name
                && forall j :: 0 <= j < found.value ==> platforms[j].name != name
      ensures found.None? ==> forall j :: 0 <= j < |platforms| ==> platforms[j].name != name
    {
      for i := 0 to |platforms|
        invariant forall j :: 0 <= j < i ==> platforms[j].name != name
      {
        if platforms[i].name == name {
          return Some(i);
        }
      }
      return None;
    }

    method SetStatusPlatform(p: PlatformStatus)
      modifies this`platforms
      ensures platforms == Upsert(old(platforms), p)
    {
      var found := FindStatusPlatform(p.name);
      if found.None? {
        UpsertSplit(platforms, p, |platforms|);
        platforms := platforms + [p];
        return;
      }
      var i := found.value;
      UpsertSplit(platforms, p, i);
      assert platforms[i..][1..] == platforms[i + 1..];
      platforms := platforms[i := platforms[i].(status := p.status, lastMessage := p.lastMessage)];
    }
  }

  // ----- One pass -----

  datatype Walk = Walk(status: CrStatus, exit: Exit)

  /** The loop over the platforms visited, in the order visited. */
  function Visit(status: CrStatus, order: seq<string>, config: Config, results: Results): Walk
    requires forall i :: 0 <= i < |order| ==> order[i] in config && order[i] in results
    decreases |order|
  {
    if order == [] then Walk(status, Finished)
    else if !config[order[0]] then Visit(status, order[1..], config, results)
    else
      match results[order[0]]
      case Err(_) => Walk(status, Aborted)
      case Ok(result) =>
        var next := status.(platforms := Upsert(status.platforms, PlatformStatus(order[0], result, "")));
        if result == Success then Visit(next, order[1..], config, results)
        else Walk(next.(conditions := Set(next.conditions, IN_PROGRESS)), Stopped)
  }

  /** The platform has no reconciler, or its reconciler reports a success. */
  predicate Completes(p: string, config: Config, results: Results)
    requires p in config && p in results
  {
    config[p] ==> results[p].Ok? && results[p].value == Success
  }

  /** The visited platforms: each configured one at most once, all but the last complete, and all of them unless the
      loop left early. */
  ghost predicate Visited(order: seq<string>, config: Config, results: Results, exit: Exit) {
    && (forall i :: 0 <= i < |order| ==> order[i] in config && order[i] in results)
    && (forall i, j :: 0 <= i < j < |order| ==> order[i] != order[j])
    && (forall i :: 0 <= i < |order| - 1 ==> Completes(order[i], config, results))
    && (exit == Finished ==> forall p :: p in config ==> p in order)
  }

  datatype Controller = Controller(installComplete: bool, stored: CrStatus)

  /** What the pass leaves behind; an aborted pass writes nothing, and the latch is set before the write is tried. */
  function AfterWalk(c: Controller, walk: Walk, writeOk: bool): Controller {
    if walk.exit == Aborted then c
    else
      var completes := walk.exit == Finished && !c.installComplete;
      var next := if completes then walk.status.(conditions := Set(walk.status.conditions, COMPLETE)) else walk.status;
      Controller(c.installComplete || completes, if writeOk then next else c.stored)
  }

  lemma {:induction false} VisitOneMore(status: CrStatus, order: seq<string>, p: string,
                                        config: Config, results: Results)
    requires p in config && p in results
    requires forall i :: 0 <= i < |order| ==> order[i] in config && order[i] in results
    requires Visit(status, order, config, results).exit == Finished
    ensures Visit(status, order + [p], config, results)
            == Visit(Visit(status, order, config, results).status, [p], config, results)
    decreases |order|
  {
    if order != [] {
      assert (order + [p])[1..] == order[1..] + [p];
      assert (order + [p])[0] == order[0];
      if !config[order[0]] {
        VisitOneMore(status, order[1..], p, config, results);
      } else {
        var first := PlatformStatus(order[0], results[order[0]].value, "");
        var next := status.(platforms := Upsert(status.platforms, first));
        VisitOneMore(next, order[1..], p, config, results);
      }
    } else {
      assert order + [p] == [p];
    }
  }

  class PlatformReconciler {
    var installComplete: bool
    var stored: CrStatus

    function Value(): Controller
      reads this
    {
      Controller(installComplete, stored)
    }

    constructor (stored: CrStatus)
      ensures Value() == Controller(false, stored)
    {
      this.installComplete, this.stored := false, stored;
    }

    method Loop(next: NextStatus, config: Config, results: Results) returns (order: seq<string>, exit: Exit)
      requires config.Keys <= results.Keys
      modifies next
      ensures Visited(order, config, results, exit) && (config == map[] ==> order == [])
      ensures Visit(old(next.Value()), order, config, results) == Walk(next.Value(), exit)
    {
      order := [];
      var rest := config.Keys;
      while rest != {}
        invariant rest <= config.Keys && (config == map[] ==> order == [])
        invariant forall p :: p in order <==> p in config && p !in rest
        invariant forall i :: 0 <= i < |order| ==> order[i] in config && Completes(order[i], config, results)
        invariant forall i, j :: 0 <= i < j < |order| ==> order[i] != order[j]
        invariant Visit(old(next.Value()), order, config, results) == Walk(next.Value(), Finished)
        decreases |rest|
      {
        var p :| p in rest;
        rest := rest - {p};
        VisitOneMore(old(next.Value()), order, p, config, results);
        order := order + [p];
        if config[p] {
          if results[p].Err? {
            return order, Aborted;
          }
          next.SetStatusPlatform(PlatformStatus(p, results[p].value, ""));
          if results[p].value != Success {
            next.conditions := Set(next.conditions, IN_PROGRESS);
            return order, Stopped;
          }
        }
      }
      exit := Finished;
    }

    /** One pass over an existing CR. A CR that is being deleted gets no platforms, so nothing is visited. */
    method Reconcile(config: Config, deleting: bool, results: Results, writeOk: bool)
      returns (order: seq<string>, walk: Walk)
      requires config.Keys <= results.Keys
      modifies this
      ensures deleting ==> order == [] && Value() == old(Value())
      ensures !deleting ==>
                && Visited(order, config, results, walk.exit)
                && Visit(old(stored), order, config, results) == walk
                && Value() == AfterWalk(old(Value()), walk, writeOk)
    {
      var next := new NextStatus(stored);
      var platforms: Config := map[];
      if !deleting {
        platforms := config;
      }
      var exit;
      order, exit := Loop(next, platforms, results);
      walk := Walk(next.Value(), exit);
      if exit == Aborted {
        return;
      }
      if !deleting && exit == Finished && !installComplete {
        installComplete := true;
        next.conditions := Set(next.conditions, COMPLETE);
      }
      if stored != next.Value() {
        if writeOk {
          stored := next.Value();
        }
      }
    }
  }

  // ----- Whole runs -----

  /** One event of a process: a pass with what it met, over a CR that is or is not being deleted. */
  datatype Event = Event(order: seq<string>, results: Results, exit: Exit, deleting: bool, writeOk: bool)

  ghost predicate Possible(c: Controller, e: Event, config: Config) {
    && config.Keys <= e.results.Keys
    && Visited(e.order, config, e.results, e.exit)
    && Visit(c.stored, e.order, config, e.results).exit == e.exit
  }

  function Next(c: Controller, e: Event, config: Config): Controller
    requires forall i :: 0 <= i < |e.order| ==> e.order[i] in config && e.order[i] in e.results
  {
    if e.deleting then c else AfterWalk(c, Visit(c.stored, e.order, config, e.results), e.writeOk)
  }

  ghost predicate IsRun(c: Controller, es: seq<Event>, config: Config)
    decreases |es|
  {
    es == [] || (Possible(c, es[0], config) && IsRun(Next(c, es[0], config), es[1..], config))
  }

  ghost function After(c: Controller, es: seq<Event>, config: Config): Controller
    requires IsRun(c, es, config)
    decreases |es|
  {
    if es == [] then c else After(Next(c, es[0], config), es[1..], config)
  }

  // ----- What a pass records -----

  /** How the loop ends is decided by the answer of the last platform it visits. Unless that is an error, every visited
      platform with a reconciler is recorded with exactly what its reconciler answered, and all others stay as they
      were. */
  lemma {:induction false} WalkRecords(status: CrStatus, order: seq<string>, config: Config, results: Results,
                                       p: string)
    requires Visited(order, config, results, Stopped)
    ensures var walk := Visit(status, order, config, results);
            && (walk.exit == Finished <==> forall i :: 0 <= i < |order| ==> Completes(order[i], config, results))
            && (walk.exit == Aborted <==>
                  order != [] && config[order[|order| - 1]] && results[order[|order| - 1]].Err?)
            && (walk.exit != Aborted && p in order && config[p] ==> results[p].Ok?)
            && (walk.exit != Aborted ==>
                  Recorded(walk.status.platforms, p)
                  == if p in order && config[p] then Some(results[p].value) else Recorded(status.platforms, p))
    decreases |order|
  {
    if order != [] {
      var last := |order| - 1;
      assert p in order <==> p == order[0] || p in order[1..];
      assert last > 0 ==> order[1..][last - 1] == order[last];
      if last > 0 {
        assert Completes(order[0], config, results);
      }
      if !config[order[0]] {
        WalkRecords(status, order[1..], config, results, p);
      } else if results[order[0]].Ok? {
        var first := PlatformStatus(order[0], results[order[0]].value, "");
        var next := status.(platforms := Upsert(status.platforms, first));
        UpsertRecords(status.platforms, first, p);
        if results[order[0]].value == Success {
          WalkRecords(next, order[1..], config, results, p);
        }
      }
    }
  }

  lemma {:induction false} WalkConditions(status: CrStatus, order: seq<string>, config: Config, results: Results)
    requires forall i :: 0 <= i < |order| ==> order[i] in config && order[i] in results
    ensures var walk := Visit(status, order, config, results);
            walk.status.conditions
            == if walk.exit == Stopped then Set(status.conditions, IN_PROGRESS) else status.conditions
    decreases |order|
  {
    if order != [] {
      if !config[order[0]] {
        WalkConditions(status, order[1..], config, results);
      } else if results[order[0]].Ok? && results[order[0]].value == Success {
        var first := PlatformStatus(order[0], results[order[0]].value, "");
        WalkConditions(status.(platforms := Upsert(status.platforms, first)), order[1..], config, results);
      }
    }
  }

  /** The pass stores an answer of platform p. */
  ghost predicate Stores(e: Event, config: Config, p: string) {
    && !e.deleting && e.writeOk && e.exit != Aborted
    && p in e.order && p in config && config[p] && p in e.results && e.results[p].Ok?
  }

  lemma PassRecords(c: Controller, e: Event, config: Config, p: string)
    requires Possible(c, e, config)
    ensures Recorded(Next(c, e, config).stored.platforms, p)
            == if Stores(e, config, p) then Some(e.results[p].value) else Recorded(c.stored.platforms, p)
  {
    WalkRecords(c.stored, e.order, config, e.results, p);
  }

  /** What a pass leaves as the platform's condition, as the other conditions, and as the latch. */
  lemma PassConditions(c: Controller, e: Event, config: Config, kind: Kind)
    requires Possible(c, e, config)
    ensures var d := Next(c, e, config);
            && (d.installComplete <==> c.installComplete || (!e.deleting && e.exit == Finished))
            && Find(d.stored.conditions, kind)
               == if kind != PlatformReady || e.deleting || !e.writeOk || e.exit == Aborted
                     || (e.exit == Finished && c.installComplete)
                  then Find(c.stored.conditions, kind)
                  else if e.exit == Finished then Some(Condition(PlatformReady, True, ReadyReason))
                  else Some(Condition(PlatformReady, False, InstallationInprogress))
  {
    WalkConditions(c.stored, e.order, config, e.results);
    SetFinds(c.stored.conditions, IN_PROGRESS, kind);
    SetFinds(c.stored.conditions, COMPLETE, kind);
  }

  /** The last answer of platform p that a run stored. */
  ghost function LastStored(es: seq<Event>, config: Config, p: string): Option<InstallStatus>
    decreases |es|
  {
    if es == [] then None
    else
      var later := LastStored(es[1..], config, p);
      if later.Some? then later
      else if Stores(es[0], config, p) then Some(es[0].results[p].value)
      else None
  }

  /** What is recorded for a platform is its last answer in a pass that was stored, or what was recorded at first. */
  lemma {:induction false} RunRecords(c: Controller, es: seq<Event>, config: Config, p: string)
    requires IsRun(c, es, config)
    ensures Recorded(After(c, es, config).stored.platforms, p)
            == if LastStored(es, config, p).Some? then LastStored(es, config, p) else Recorded(c.stored.platforms, p)
    decreases |es|
  {
    if es != [] {
      PassRecords(c, es[0], config, p);
      RunRecords(Next(c, es[0], config), es[1..], config, p);
    }
  }

  /** A stored success goes back to a pass in which the platform answered so, or to the initial status. */
  lemma {:induction false} SuccessWasAnswered(c: Controller, es: seq<Event>, config: Config, p: string)
    requires IsRun(c, es, config) && Recorded(After(c, es, config).stored.platforms, p) == Some(Success)
    ensures || Recorded(c.stored.platforms, p) == Some(Success)
            || exists i :: 0 <= i < |es| && Stores(es[i], config, p) && es[i].results[p].value == Success
    decreases |es|
  {
    if es != [] {
      PassRecords(c, es[0], config, p);
      SuccessWasAnswered(Next(c, es[0], config), es[1..], config, p);
      if i :| 0 <= i < |es| - 1 && Stores(es[1..][i], config, p) && es[1..][i].results[p].value == Success {
        assert Stores(es[i + 1], config, p);
      }
    }
  }

  // ----- Whole runs keep the status sound -----

  predicate Ready(status: CrStatus) {
    IsTrue(status.conditions, PlatformReady)
  }

  ghost predicate AllRecorded(status: CrStatus, config: Config) {
    forall p :: p in config && config[p] ==> Recorded(status.platforms, p) == Some(Success)
  }

  ghost predicate Sound(status: CrStatus, config: Config) {
    Clean(status.platforms) && (Ready(status) ==> AllRecorded(status, config))
  }

  /** The walk keeps the list clean, and stays ready only while everything is recorded as a success. */
  lemma {:induction false} VisitSound(status: CrStatus, order: seq<string>, config: Config, results: Results)
    requires forall i :: 0 <= i < |order| ==> order[i] in config && order[i] in results
    requires Clean(status.platforms)
    ensures var walk := Visit(status, order, config, results);
            && Clean(walk.status.platforms)
            && (walk.exit == Stopped ==> !Ready(walk.status))
            && (walk.exit != Stopped ==> walk.status.conditions == status.conditions)
            && (forall p :: walk.exit != Stopped && Recorded(status.platforms, p) == Some(Success) ==>
                              Recorded(walk.status.platforms, p) == Some(Success))
            && (forall p :: walk.exit == Finished && p in order && config[p] ==>
                              Recorded(walk.status.platforms, p) == Some(Success))
    decreases |order|
  {
    if order != [] {
      if !config[order[0]] {
        VisitSound(status, order[1..], config, results);
      } else if results[order[0]].Ok? {
        var p := PlatformStatus(order[0], results[order[0]].value, "");
        var next := status.(platforms := Upsert(status.platforms, p));
        UpsertKeepsClean(status.platforms, p);
        forall name
          ensures Recorded(next.platforms, name)
                  == if name == p.name then Some(p.status) else Recorded(status.platforms, name)
        {
          UpsertRecords(status.platforms, p, name);
        }
        if p.status == Success {
          VisitSound(next, order[1..], config, results);
        } else {
          SetFinds(next.conditions, IN_PROGRESS, PlatformReady);
        }
      }
    }
  }

  lemma NextSound(c: Controller, e: Event, config: Config)
    requires Possible(c, e, config) && Sound(c.stored, config)
    ensures Sound(Next(c, e, config).stored, config)
  {
    var walk := Visit(c.stored, e.order, config, e.results);
    VisitSound(c.stored, e.order, config, e.results);
    SetFinds(walk.status.conditions, COMPLETE, PlatformReady);
  }

  lemma {:induction false} RunKeepsSound(c: Controller, es: seq<Event>, config: Config)
    requires Sound(c.stored, config) && IsRun(c, es, config)
    ensures Sound(After(c, es, config).stored, config)
    decreases |es|
  {
    if es != [] {
      NextSound(c, es[0], config);
      RunKeepsSound(Next(c, es[0], config), es[1..], config);
    }
  }

  lemma EmptyIsSound(config: Config)
    ensures Sound(CrStatus([], []), config)
  {
  }

  /** In every status stored by a run from the empty one, names are unique, no message is left over, and a ready
      platform has every configured component recorded as a success. */
  lemma StoredStaysSound(installComplete: bool, es: seq<Event>, config: Config)
    requires IsRun(Controller(installComplete, CrStatus([], [])), es, config)
    ensures Sound(After(Controller(installComplete, CrStatus([], [])), es, config).stored, config)
  {
    EmptyIsSound(config);
    RunKeepsSound(Controller(installComplete, CrStatus([], [])), es, config);
  }

  /** How often the stored status turns ready in a run of one process. */
  ghost function Rises(c: Controller, es: seq<Event>, config: Config): nat
    requires IsRun(c, es, config)
    decreases |es|
  {
    if es == [] then 0
    else
      var d := Next(c, es[0], config);
      (if !Ready(c.stored) && Ready(d.stored) then 1 else 0) + Rises(d, es[1..], config)
  }

  /** A pass turns the stored status ready exactly when it is the first of the process to see every platform succeed and
      its write goes through. */
  lemma ReadyAfterIff(c: Controller, e: Event, config: Config)
    requires Possible(c, e, config) && Clean(c.stored.platforms)
    ensures var d := Next(c, e, config);
            Ready(d.stored) <==>
            || (!e.deleting && e.exit == Finished && !c.installComplete && e.writeOk)
            || (Ready(c.stored) && (e.deleting || e.exit != Stopped || !e.writeOk))
  {
    var walk := Visit(c.stored, e.order, config, e.results);
    VisitSound(c.stored, e.order, config, e.results);
    SetFinds(walk.status.conditions, COMPLETE, PlatformReady);
  }

  lemma {:induction false} ReadyRisesOnce(c: Controller, es: seq<Event>, config: Config)
    requires Sound(c.stored, config) && IsRun(c, es, config)
    ensures Rises(c, es, config) <= if c.installComplete then 0 else 1
    decreases |es|
  {
    if es != [] {
      ReadyAfterIff(c, es[0], config);
      NextSound(c, es[0], config);
      ReadyRisesOnce(Next(c, es[0], config), es[1..], config);
    }
  }

  /** A process that has latched while the status is not ready, be it because the completing write failed or because a
      platform fell back later, never reports ready again, whatever succeeds afterwards. */
  lemma {:induction false} LatchedStaysUnready(c: Controller, es: seq<Event>, config: Config)
    requires Sound(c.stored, config) && IsRun(c, es, config)
    requires c.installComplete && !Ready(c.stored)
    ensures !Ready(After(c, es, config).stored) && After(c, es, config).installComplete
    decreases |es|
  {
    if es != [] {
      ReadyAfterIff(c, es[0], config);
      NextSound(c, es[0], config);
      LatchedStaysUnready(Next(c, es[0], config), es[1..], config);
    }
  }

  /** Such a process exists: the completing pass of a platform whose status write fails. */
  lemma CompletingWriteCanBeLost() returns (c: Controller, e: Event, config: Config)
    ensures c == Controller(false, CrStatus([], [])) && Possible(c, e, config) && e.exit == Finished
    ensures Next(c, e, config).installComplete && !Ready(Next(c, e, config).stored)
  {
    c, config := Controller(false, CrStatus([], [])), map["observability" := true];
    e := Event(["observability"], map["observability" := Ok(Success)], Finished, false, false);
    assert Visit(c.stored, e.order, config, e.results).exit == Finished by {
      assert e.order[1..] == [];
    }
  }
}
