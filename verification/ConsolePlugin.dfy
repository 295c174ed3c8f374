/** The list of enabled plugins in the cluster's console configuration. */
module ConsolePlugin {
  import opened Slices

  datatype Outcome = Success | InProgress | Failed

  datatype UpdateAnswer = Updated | UpdateConflict | UpdateError

  // ----- The list, as values -----

  function Added(plugins: seq<string>, name: string): seq<string> {
    if name in plugins then plugins else plugins + [name]
  }

  /** Without the first occurrence of the name. */
  function Removed(plugins: seq<string>, name: string): seq<string> {
    if plugins == [] then []
    else if plugins[0] == name then plugins[1..]
    else [plugins[0]] + Removed(plugins[1..], name)
  }

  /** The other entries, in order. */
  ghost function Others(plugins: seq<string>, name: string): seq<string> {
    if plugins == [] then []
    else if plugins[0] == name then Others(plugins[1..], name)
    else [plugins[0]] + Others(plugins[1..], name)
  }

  ghost predicate Distinct(plugins: seq<string>) {
    forall i, j :: 0 <= i < j < |plugins| ==> plugins[i] != plugins[j]
  }

  // ----- The list, in place -----

  method AddPlugin(plugins: Slice<string>, name: string) returns (grown: Slice<string>, add: bool)
    requires plugins.Valid()
    modifies plugins.data
    ensures grown.Valid() && grown.Contents() == Added(old(plugins.Contents()), name)
    ensures add <==> name !in old(plugins.Contents())
    ensures !add ==> grown == plugins
    ensures plugins.Contents() == old(plugins.Contents())
  {
    ghost var before := plugins.Contents();
    for i := 0 to plugins.length
      invariant plugins.Contents() == before
      invariant forall j :: 0 <= j < i ==> before[j] != name
    {
      if plugins.data[i] == name {
        assert before[i] == name;
        return plugins, false;
      }
    }
    grown := Append(plugins, name);
    add := true;
  }

  /** Shifts the entries behind the first occurrence down by one, in the same array; the caller's old view of the array
      is one longer and ends in a second copy of its last entry. */
  method RemovePlugin(plugins: Slice<string>, name: string) returns (rest: Slice<string>)
    requires plugins.Valid()
    modifies plugins.data
    ensures rest.Valid() && rest.data == plugins.data
    ensures rest.Contents() == Removed(old(plugins.Contents()), name)
    ensures plugins.Contents()
            == rest.Contents()
               + if name in old(plugins.Contents()) then [old(plugins.Contents())[plugins.length - 1]] else []
  {
    ghost var before := plugins.Contents();
    for i := 0 to plugins.length
      invariant plugins.Contents() == before
      invariant forall j :: 0 <= j < i ==> before[j] != name
    {
      if plugins.data[i] == name {
        assert before[i] == name;
        rest := RemoveAt(plugins, i);
        RemovedAt(before, name, i);
        return;
      }
    }
    RemovedAbsent(before, name);
    rest := plugins;
  }

  method RemoveAt(plugins: Slice<string>, at: nat) returns (rest: Slice<string>)
    requires plugins.Valid() && at < plugins.length
    modifies plugins.data
    ensures rest.Valid() && rest.data == plugins.data
    ensures rest.Contents() == old(plugins.Contents()[..at] + plugins.Contents()[at + 1..])
    ensures plugins.Contents() == rest.Contents() + [old(plugins.Contents()[plugins.length - 1])]
  {
    ShiftDown(plugins, at);
    rest := Slice(plugins.data, plugins.length - 1);
  }

  method ShiftDown(plugins: Slice<string>, at: nat)
    requires plugins.Valid() && at < plugins.length
    modifies plugins.data
    ensures plugins.data[..plugins.length - 1] == old(plugins.Contents()[..at] + plugins.Contents()[at + 1..])
    ensures plugins.data[plugins.length - 1] == old(plugins.data[plugins.length - 1])
  {
    ghost var before := plugins.Contents();
    for k := at to plugins.length - 1
      invariant forall j :: 0 <= j < plugins.length ==> plugins.data[j] == before[if at <= j < k then j + 1 else j]
    {
      plugins.data[k] := plugins.data[k + 1];
    }
  }

  lemma {:induction false} RemovedAt(plugins: seq<string>, name: string, i: nat)
    requires i < |plugins| && plugins[i] == name && forall j :: 0 <= j < i ==> plugins[j] != name
    ensures Removed(plugins, name) == plugins[..i] + plugins[i + 1..]
    decreases i
  {
    if i > 0 {
      RemovedAt(plugins[1..], name, i - 1);
    }
  }

  lemma {:induction false} RemovedAbsent(plugins: seq<string>, name: string)
    requires name !in plugins
    ensures Removed(plugins, name) == plugins
    decreases |plugins|
  {
    if plugins != [] {
      RemovedAbsent(plugins[1..], name);
    }
  }

  // ----- What the two operations promise -----

  lemma {:induction false} OthersOfSum(a: seq<string>, b: seq<string>, name: string)
    ensures Others(a + b, name) == Others(a, name) + Others(b, name)
    decreases |a|
  {
    if a == [] {
      assert a + b == b;
    } else {
      assert (a + b)[1..] == a[1..] + b;
      OthersOfSum(a[1..], b, name);
    }
  }

  /** Installing leaves the name in the list once more at most, and exactly once where the list had no duplicates. */
  lemma AddedKeeps(plugins: seq<string>, name: string)
    ensures name in Added(plugins, name)
    ensures Others(Added(plugins, name), name) == Others(plugins, name)
    ensures multiset(Added(plugins, name))[name] == if name in plugins then multiset(plugins)[name] else 1
    ensures Distinct(plugins) ==> Distinct(Added(plugins, name))
  {
    OthersOfSum(plugins, [name], name);
  }

  lemma {:induction false} RemovedKeeps(plugins: seq<string>, name: string)
    ensures Others(Removed(plugins, name), name) == Others(plugins, name)
    ensures multiset(Removed(plugins, name)) == multiset(plugins) - multiset{name}
    decreases |plugins|
  {
    if plugins != [] {
      assert plugins == [plugins[0]] + plugins[1..];
      if plugins[0] != name {
        RemovedKeeps(plugins[1..], name);
        assert Removed(plugins, name)[1..] == Removed(plugins[1..], name);
      }
    }
  }

  /** Removing keeps a list free of duplicates, and then takes the name out altogether. */
  lemma RemovedDistinct(plugins: seq<string>, name: string)
    requires Distinct(plugins)
    ensures Distinct(Removed(plugins, name)) && name !in Removed(plugins, name)
  {
    if name in plugins {
      var i :| 0 <= i < |plugins| && plugins[i] == name;
      RemovedAt(plugins, name, i);
    } else {
      RemovedAbsent(plugins, name);
    }
  }

  /** Removing undoes installing exactly when the name was not in the list before. */
  lemma RemoveUndoesAddIff(plugins: seq<string>, name: string)
    ensures Removed(Added(plugins, name), name) == plugins <==> name !in plugins
  {
    if name in plugins {
      RemovedKeeps(plugins, name);
      assert multiset(plugins)[name] > 0;
    } else {
      RemovedAt(plugins + [name], name, |plugins|);
    }
  }

  // ----- Whole runs -----

  /** Passes over the stored list: a pass reads the list, changes its own copy, and stores it if the update succeeds. */
  datatype Pass = Install(answer: UpdateAnswer) | Uninstall(answer: UpdateAnswer)

  function AfterPass(stored: seq<string>, name: string, pass: Pass): seq<string> {
    match pass
    case Install(answer) => if answer == Updated then Added(stored, name) else stored
    case Uninstall(answer) => if answer == Updated then Removed(stored, name) else stored
  }

  function AfterPasses(stored: seq<string>, name: string, passes: seq<Pass>): seq<string>
    decreases |passes|
  {
    if passes == [] then stored else AfterPasses(AfterPass(stored, name, passes[0]), name, passes[1..])
  }

  lemma PassKeeps(stored: seq<string>, name: string, pass: Pass)
    ensures Others(AfterPass(stored, name, pass), name) == Others(stored, name)
    ensures multiset(AfterPass(stored, name, pass))[name] <= 1
            || multiset(AfterPass(stored, name, pass))[name] <= multiset(stored)[name]
  {
    if pass.Install? {
      AddedKeeps(stored, name);
    } else {
      RemovedKeeps(stored, name);
      assert multiset(Removed(stored, name))[name] <= multiset(stored)[name];
    }
  }

  /** Whatever passes run and fail in whatever order, the other entries keep their order and the name never occurs more
      often than once or than it did at first. */
  lemma {:induction false} PassesKeep(stored: seq<string>, name: string, passes: seq<Pass>)
    ensures Others(AfterPasses(stored, name, passes), name) == Others(stored, name)
    ensures multiset(AfterPasses(stored, name, passes))[name] <= 1
            || multiset(AfterPasses(stored, name, passes))[name] <= multiset(stored)[name]
    decreases |passes|
  {
    if passes != [] {
      PassKeeps(stored, name, passes[0]);
      PassesKeep(AfterPass(stored, name, passes[0]), name, passes[1..]);
    }
  }

  /** Install passes alone add the name at most once, at the end, and as soon as one update gets through. */
  lemma {:induction false} InstallsAddOnce(stored: seq<string>, name: string, passes: seq<Pass>)
    requires forall pass <- passes :: pass.Install?
    ensures AfterPasses(stored, name, passes)
            == if exists pass <- passes :: pass.answer == Updated then Added(stored, name) else stored
    decreases |passes|
  {
    if passes != [] {
      InstallsAddOnce(AfterPass(stored, name, passes[0]), name, passes[1..]);
      assert forall pass :: pass in passes <==> pass == passes[0] || pass in passes[1..];
    }
  }

  // ----- The console -----

  datatype ConditionType = DeploymentAvailable | OtherType(text: string)

  datatype ConsoleCondition = ConsoleCondition(kind: ConditionType, isTrue: bool)

  predicate Available(conditions: seq<ConsoleCondition>) {
    && conditions != []
    && if conditions[0].kind == DeploymentAvailable then conditions[0].isTrue else Available(conditions[1..])
  }

  /** The first condition about the deployment decides. */
  lemma {:induction false} AvailableIff(conditions: seq<ConsoleCondition>)
    ensures Available(conditions) <==>
            exists i :: 0 <= i < |conditions| && conditions[i] == ConsoleCondition(DeploymentAvailable, true)
                        && forall j :: 0 <= j < i ==> conditions[j].kind != DeploymentAvailable
    decreases |conditions|
  {
    if conditions != [] && conditions[0].kind != DeploymentAvailable {
      AvailableIff(conditions[1..]);
      if Available(conditions) {
        var i :| 0 <= i < |conditions| - 1 && conditions[1..][i] == ConsoleCondition(DeploymentAvailable, true)
                 && forall j :: 0 <= j < i ==> conditions[1..][j].kind != DeploymentAvailable;
        assert conditions[i + 1] == ConsoleCondition(DeploymentAvailable, true);
      }
      if i :| 0 <= i < |conditions| && conditions[i] == ConsoleCondition(DeploymentAvailable, true)
              && forall j :: 0 <= j < i ==> conditions[j].kind != DeploymentAvailable {
        assert conditions[1..][i - 1] == ConsoleCondition(DeploymentAvailable, true);
      }
    }
  }

  /** Installing and cleaning up, with both updates stored, gives back the list exactly when it lacked the name. */
  lemma InstallThenUninstall(stored: seq<string>, name: string)
    ensures AfterPasses(stored, name, [Install(Updated), Uninstall(Updated)]) == stored <==> name !in stored
  {
    var passes := [Install(Updated), Uninstall(Updated)];
    assert passes[1..] == [Uninstall(Updated)];
    assert [Uninstall(Updated)][1..] == [];
    var installed := Added(stored, name);
    assert AfterPasses(installed, name, [Uninstall(Updated)]) == AfterPasses(Removed(installed, name), name, []);
    RemoveUndoesAddIff(stored, name);
  }

  /** The stored console configuration. */
  class Console {
    const name: string
    var plugins: seq<string>
    var conditions: seq<ConsoleCondition>

    constructor (name: string, plugins: seq<string>, conditions: seq<ConsoleCondition>)
      ensures this.name == name && this.plugins == plugins && this.conditions == conditions
    {
      this.name, this.plugins, this.conditions := name, plugins, conditions;
    }

    /** Reads the list into memory of the pass's own. */
    method Get() returns (local: Slice<string>)
      ensures local.Valid() && local.Contents() == plugins && (local.data != null ==> fresh(local.data))
    {
      var n := |plugins|;
      var data := new string[n];
      forall i | 0 <= i < n {
        data[i] := plugins[i];
      }
      local := Slice(data, n);
    }

    /** Succeeds only in a pass that found the plugin already listed and the deployment available, and wrote nothing. */
    method Enable(found: bool, answer: UpdateAnswer) returns (outcome: Outcome)
      modifies this`plugins
      ensures plugins == if found then AfterPass(old(plugins), name, Install(answer)) else old(plugins)
      ensures plugins == if found && answer == Updated && name !in old(plugins) then old(plugins) + [name]
                         else old(plugins)
      ensures outcome == Success <==> found && name in old(plugins) && Available(conditions)
      ensures outcome == Failed <==> !found || (name !in old(plugins) && answer == UpdateError)
      ensures outcome == Success ==> plugins == old(plugins)
    {
      if !found {
        return Failed;
      }
      var local := Get();
      var grown, add := AddPlugin(local, name);
      if add {
        if answer == Updated {
          plugins := if grown.data == null then [] else grown.data[..grown.length];
        }
        return if answer == UpdateError then Failed else InProgress;
      }
      for i := 0 to |conditions|
        invariant forall j :: 0 <= j < i ==> conditions[j].kind != DeploymentAvailable
        invariant Available(conditions) == Available(conditions[i..])
      {
        assert conditions[i..][1..] == conditions[i + 1..];
        if conditions[i].kind == DeploymentAvailable {
          return if conditions[i].isTrue then Success else InProgress;
        }
      }
      return InProgress;
    }

    /** The part of the clean-up that edits the list; it writes even when the plugin is not listed. */
    method Disable(found: bool, answer: UpdateAnswer) returns (outcome: Outcome)
      modifies this`plugins
      ensures plugins == if found then AfterPass(old(plugins), name, Uninstall(answer)) else old(plugins)
      ensures plugins == if found && answer == Updated then Removed(old(plugins), name) else old(plugins)
      ensures outcome == if found && answer == Updated then Success else Failed
    {
      if !found {
        return Failed;
      }
      var local := Get();
      var rest := RemovePlugin(local, name);
      if answer != Updated {
        return Failed;
      }
      plugins := if rest.data == null then [] else rest.data[..rest.length];
      return Success;
    }
  }
}
