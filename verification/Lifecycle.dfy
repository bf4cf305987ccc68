/**
 The life of instances (caddy.go: Start, Restart, Instance.Stop, ShutdownCallbacks and Stop): the
 list of running instances, and what happens to it when a callback or a step of starting fails.
 Callbacks and steps may succeed or fail in any way; they do not themselves start or stop
 instances, and nothing panics.
 */
module Lifecycle {
  import opened Sequences
  import opened Wrappers

  /** The configuration an instance is started from. */
  type Input = string

  /** The callbacks that run on certain occasions. */
  datatype Occasion = FirstStartup | Startup | BeforeRestart | RestartFailed | Shutdown | FinalShutdown

  /** How many callbacks there are for each occasion. */
  type Callbacks = Occasion -> nat

  class Instance {
    var caddyfileInput: Input
    var callbacks: Callbacks

    /** Its servers: whether each can be stopped gracefully. */
    var servers: seq<bool>

    constructor ()
    {
      caddyfileInput, callbacks, servers := "", _ => 0, [];
    }
  }

  /** A callback that ran: whose, on which occasion, which one; or a server that was told to stop. */
  datatype Event = Ran(inst: Instance, occasion: Occasion, index: nat) | Stopped(inst: Instance, index: nat)

  /** The results of the callbacks of an occasion, by their order. */
  type Results = nat -> bool

  /** How the steps of a start turn out. */
  datatype Attempt = Attempt(validates: bool, callbacks: Callbacks, makesServers: bool,
                             first: Results, startup: Results, startsServers: bool, servers: seq<bool>)

  // ---------------------------------------------------------------------------------------------
  // Runs of callbacks
  // ---------------------------------------------------------------------------------------------

  ghost predicate AllSucceed(n: nat, results: Results) {
    forall k :: 0 <= k < n ==> results(k)
  }

  /** The callbacks from the k-th on that run when the first failure ends the run. */
  function RunsFrom(inst: Instance, occasion: Occasion, k: nat, n: nat, results: Results): seq<Event>
    requires k <= n
    decreases n - k
  {
    if k == n then []
    else [Ran(inst, occasion, k)] + if results(k) then RunsFrom(inst, occasion, k + 1, n, results) else []
  }

  function Runs(inst: Instance, occasion: Occasion, n: nat, results: Results): seq<Event> {
    RunsFrom(inst, occasion, 0, n, results)
  }

  /** All callbacks of an occasion, whatever they return. */
  function RunsAll(inst: Instance, occasion: Occasion, n: nat): seq<Event> {
    seq(n, k requires 0 <= k < n => Ran(inst, occasion, k))
  }

  /** The servers, of the first n, that are told to stop: those that can. */
  function Stops(inst: Instance, servers: seq<bool>, n: nat): seq<Event>
    requires n <= |servers|
  {
    if n == 0 then [] else Stops(inst, servers, n - 1) + if servers[n - 1] then [Stopped(inst, n - 1)] else []
  }

  ghost function StopRuns(inst: Instance): seq<Event>
    reads inst
  {
    Stops(inst, inst.servers, |inst.servers|)
  }

  /** The same for several instances, one after the other. */
  ghost function StopAllRuns(list: seq<Instance>): seq<Event>
    reads set i | 0 <= i < |list| :: list[i]
  {
    if list == [] then [] else StopRuns(list[0]) + StopAllRuns(list[1..])
  }

  // ---------------------------------------------------------------------------------------------
  // The list of instances
  // ---------------------------------------------------------------------------------------------

  ghost predicate NoDuplicates(list: seq<Instance>) {
    forall i, j :: 0 <= i < j < |list| ==> list[i] != list[j]
  }

  /** The list without the first occurrence of an instance. */
  function Without(list: seq<Instance>, inst: Instance): (r: seq<Instance>) {
    if list == [] then [] else if list[0] == inst then list[1..] else [list[0]] + Without(list[1..], inst)
  }

  /** Taking an instance out of a list that has it once leaves all the others, in order. */
  lemma {:induction false} WithoutAt(list: seq<Instance>, inst: Instance, j: nat)
    requires j < |list| && list[j] == inst && inst !in list[..j]
    ensures Without(list, inst) == list[..j] + list[j + 1..]
  {
    if j > 0 {
      assert list[0] in list[..j];
      assert list[1..][..j - 1] == list[..j][1..];
      WithoutAt(list[1..], inst, j - 1);
      assert list[..j] == [list[0]] + list[1..][..j - 1];
    }
  }

  lemma {:induction false} WithoutAbsent(list: seq<Instance>, inst: Instance)
    requires inst !in list
    ensures Without(list, inst) == list
  {
    if list != [] {
      WithoutAbsent(list[1..], inst);
    }
  }

  lemma {:induction false} WithoutKeeps(list: seq<Instance>, inst: Instance)
    requires NoDuplicates(list)
    ensures NoDuplicates(Without(list, inst)) && inst !in Without(list, inst)
    ensures forall other :: other != inst ==> (other in Without(list, inst) <==> other in list)
    ensures |Without(list, inst)| == if inst in list then |list| - 1 else |list|
  {
    hide Without;
    if inst in list {
      var j :| 0 <= j < |list| && list[j] == inst;
      NotBefore(list, j);
      WithoutAt(list, inst, j);
      DropAt(list, j);
    } else {
      WithoutAbsent(list, inst);
    }
  }

  lemma {:induction false} DropAt(list: seq<Instance>, j: nat)
    requires NoDuplicates(list) && j < |list|
    ensures var rest := list[..j] + list[j + 1..];
            && NoDuplicates(rest) && list[j] !in rest
            && forall other :: other != list[j] ==> (other in rest <==> other in list)
  {
    var rest := list[..j] + list[j + 1..];
    assert forall k :: 0 <= k < |list| && k != j ==> list[k] == rest[if k < j then k else k - 1];
    assert forall k :: 0 <= k < |rest| ==> rest[k] == list[if k < j then k else k + 1];
  }

  lemma {:induction false} AppendedThenRemoved(list: seq<Instance>, inst: Instance)
    requires inst !in list
    ensures Without(list + [inst], inst) == list
  {
    var more := list + [inst];
    assert more[..|list|] == list && more[|list| + 1..] == [];
    WithoutAt(more, inst, |list|);
  }

  lemma {:induction false} ReplacedInList(list: seq<Instance>, inst: Instance, next: Instance)
    requires NoDuplicates(list) && next !in list && inst in list
    ensures Without(list + [next], inst) == Without(list, inst) + [next]
    ensures NoDuplicates(Without(list, inst) + [next]) && |Without(list, inst) + [next]| == |list|
  {
    hide Without;
    var j :| 0 <= j < |list| && list[j] == inst;
    NotBefore(list, j);
    WithoutAt(list, inst, j);
    var more := list + [next];
    assert more[..j] == list[..j] && more[j + 1..] == list[j + 1..] + [next];
    WithoutAt(more, inst, j);
    assert list[..j] + (list[j + 1..] + [next]) == list[..j] + list[j + 1..] + [next];
    WithoutKeeps(list, inst);
    OneMore(Without(list, inst), next);
  }

  lemma {:induction false} NotBefore(list: seq<Instance>, j: nat)
    requires NoDuplicates(list) && j < |list|
    ensures list[j] !in list[..j]
  {
  }

  lemma {:induction false} OneMore(list: seq<Instance>, next: Instance)
    requires NoDuplicates(list) && next !in list
    ensures NoDuplicates(list + [next])
  {
  }

  /** Whether a start succeeds: every step of it does; first-startup callbacks only count outside a restart. */
  ghost predicate Starts(a: Attempt, restart: bool) {
    && a.validates && a.makesServers
    && (restart || AllSucceed(a.callbacks(FirstStartup), a.first))
    && AllSucceed(a.callbacks(Startup), a.startup) && a.startsServers
  }

  /** The callbacks that run during a start. */
  ghost function StartRuns(inst: Instance, a: Attempt, restart: bool): seq<Event> {
    if !(a.validates && a.makesServers) then []
    else
      var first := if restart then [] else Runs(inst, FirstStartup, a.callbacks(FirstStartup), a.first);
      first + if restart || AllSucceed(a.callbacks(FirstStartup), a.first)
              then Runs(inst, Startup, a.callbacks(Startup), a.startup) else []
  }

  class Process {
    var instances: seq<Instance>
    ghost var events: seq<Event>

    ghost predicate Valid()
      reads this
    {
      NoDuplicates(instances)
    }

    constructor ()
      ensures Valid() && instances == [] && events == []
    {
      instances, events := [], [];
    }

    /** Runs the callbacks of an occasion in order, up to the first that fails. */
    method RunCallbacks(inst: Instance, occasion: Occasion, results: Results) returns (ok: bool)
      modifies this`events
      ensures ok <==> AllSucceed(inst.callbacks(occasion), results)
      ensures events == old(events) + Runs(inst, occasion, inst.callbacks(occasion), results)
    {
      var n := inst.callbacks(occasion);
      for k := 0 to n
        invariant forall j :: 0 <= j < k ==> results(j)
        invariant events + RunsFrom(inst, occasion, k, n, results) == old(events) + Runs(inst, occasion, n, results)
      {
        ghost var rest := if results(k) then RunsFrom(inst, occasion, k + 1, n, results) else [];
        assert events + ([Ran(inst, occasion, k)] + rest) == events + [Ran(inst, occasion, k)] + rest;
        events := events + [Ran(inst, occasion, k)];
        if !results(k) {
          assert events + [] == events;
          return false;
        }
      }
      assert events + [] == events;
      return true;
    }

    /** Runs all callbacks of an occasion; failures do not stop it. */
    method RunAllCallbacks(inst: Instance, occasion: Occasion, results: Results) returns (failures: nat)
      modifies this`events
      ensures events == old(events) + RunsAll(inst, occasion, inst.callbacks(occasion))
      ensures failures == 0 <==> AllSucceed(inst.callbacks(occasion), results)
    {
      var n := inst.callbacks(occasion);
      failures := 0;
      for k := 0 to n
        invariant events == old(events) + RunsAll(inst, occasion, k)
        invariant failures == 0 <==> AllSucceed(k, results)
      {
        assert RunsAll(inst, occasion, k + 1) == RunsAll(inst, occasion, k) + [Ran(inst, occasion, k)];
        assert AllSucceed(k + 1, results) <==> AllSucceed(k, results) && results(k);
        events := events + [Ran(inst, occasion, k)];
        if !results(k) {
          failures := failures + 1;
        }
      }
    }

    /** Takes the first occurrence of an instance out of the list. */
    method Splice(inst: Instance)
      modifies this`instances
      ensures instances == Without(old(instances), inst)
    {
      for j := 0 to |instances|
        invariant instances == old(instances) && inst !in instances[..j]
      {
        if instances[j] == inst {
          WithoutAt(instances, inst, j);
          instances := instances[..j] + instances[j + 1..];
          return;
        }
        assert instances[..j + 1] == instances[..j] + [instances[j]];
      }
      assert instances[..|instances|] == instances;
      WithoutAbsent(instances, inst);
    }

    /** Stops the servers of an instance and takes it out of the list; errors of servers are only logged. */
    method StopInstance(inst: Instance)
      requires Valid()
      modifies this
      ensures Valid() && instances == Without(old(instances), inst)
      ensures events == old(events) + StopRuns(inst)
    {
      for k := 0 to |inst.servers|
        invariant instances == old(instances) && events == old(events) + Stops(inst, inst.servers, k)
      {
        if inst.servers[k] {
          events := events + [Stopped(inst, k)];
        }
      }
      WithoutKeeps(instances, inst);
      Splice(inst);
    }

    /** Shutdown callbacks, the final ones included: all run, and every failure is counted. */
    method ShutdownCallbacks(inst: Instance, shutdown: Results, final: Results) returns (failures: nat)
      modifies this`events
      ensures events == old(events) + RunsAll(inst, Shutdown, inst.callbacks(Shutdown)) +
                        RunsAll(inst, FinalShutdown, inst.callbacks(FinalShutdown))
      ensures failures == 0 <==> AllSucceed(inst.callbacks(Shutdown), shutdown) &&
                                 AllSucceed(inst.callbacks(FinalShutdown), final)
    {
      failures := RunAllCallbacks(inst, Shutdown, shutdown);
      var more := RunAllCallbacks(inst, FinalShutdown, final);
      failures := failures + more;
    }

    /** Starts a new instance: it is in the list at the end if every step succeeds, and else the list is as before. */
    method StartWithListenerFds(input: Input, inst: Instance, restart: bool, a: Attempt) returns (ok: bool)
      requires Valid() && inst !in instances
      modifies this, inst
      ensures Valid() && ok == Starts(a, restart)
      ensures instances == if ok then old(instances) + [inst] else old(instances)
      ensures events == old(events) + StartRuns(inst, a, restart)
      ensures ok ==> inst.caddyfileInput == input && inst.callbacks == a.callbacks && inst.servers == a.servers
    {
      hide AllSucceed, Runs, Without;
      AppendedThenRemoved(instances, inst);
      instances := instances + [inst];
      ok := StartSteps(input, inst, restart, a);
      if !ok {
        Splice(inst);
      }
    }

    method StartSteps(input: Input, inst: Instance, restart: bool, a: Attempt) returns (ok: bool)
      modifies this`events, inst
      ensures ok == Starts(a, restart)
      ensures events == old(events) + StartRuns(inst, a, restart)
      ensures ok ==> inst.caddyfileInput == input && inst.callbacks == a.callbacks && inst.servers == a.servers
    {
      hide AllSucceed, Runs;
      inst.caddyfileInput := input;
      if !a.validates {
        return false;
      }
      inst.callbacks := a.callbacks;
      if !a.makesServers {
        return false;
      }
      ghost var before := events;
      assert before + [] == before;
      if !restart {
        ok := RunCallbacks(inst, FirstStartup, a.first);
        if !ok {
          assert Runs(inst, FirstStartup, a.callbacks(FirstStartup), a.first) + [] ==
                 Runs(inst, FirstStartup, a.callbacks(FirstStartup), a.first);
          return;
        }
      }
      ok := RunCallbacks(inst, Startup, a.startup);
      if !ok {
        return;
      }
      ok := a.startsServers;
      inst.servers := a.servers;
    }

    /** Starts with a configuration. */
    method Start(input: Input, a: Attempt) returns (inst: Instance, ok: bool)
      requires Valid()
      modifies this
      ensures Valid() && fresh(inst) && ok == Starts(a, false)
      ensures instances == if ok then old(instances) + [inst] else old(instances)
      ensures events == old(events) + StartRuns(inst, a, false)
    {
      inst := new Instance();
      ok := StartWithListenerFds(input, inst, false, a);
    }

    /**
     Restarts an instance, with its own configuration if none is given. The list changes only after
     the new instance has fully started, and then the old one is taken out and the new one is at the
     end, whether or not shutdown callbacks fail afterwards. On every error, and only then, all
     callbacks for a failed restart run, each once, last.
     */
    method Restart(inst: Instance, newCaddyfile: Option<Input>, restart: Results, a: Attempt, shutdown: Results,
                   failed: Results)
      returns (result: Instance, ghost next: Instance, ok: bool)
      requires Valid() && inst in instances
      modifies this
      ensures Valid()
      ensures ok <==> RestartsFully(inst, restart, a, shutdown)
      ensures Replaces(inst, restart, a) ==>
                && fresh(next) && instances == Without(old(instances), inst) + [next]
                && next.callbacks == a.callbacks && next.servers == a.servers
                && next.caddyfileInput == if newCaddyfile.Some? then newCaddyfile.value else inst.caddyfileInput
      ensures !Replaces(inst, restart, a) ==> instances == old(instances)
      ensures ok ==> result == next
      ensures !ok ==> result == inst
      ensures events == old(events) + RestartRuns(inst, next, restart, a, shutdown) +
                        if ok then [] else RunsAll(inst, RestartFailed, inst.callbacks(RestartFailed))
    {
      hide AllSucceed, Runs, RunsAll, StartRuns, Without, Starts;
      result, next, ok := RestartSteps(inst, newCaddyfile, restart, a, shutdown);
      ghost var before := events;
      assert before + [] == before;
      if !ok {
        var _ := RunAllCallbacks(inst, RestartFailed, failed);
      }
    }

    method RestartSteps(inst: Instance, newCaddyfile: Option<Input>, restart: Results, a: Attempt, shutdown: Results)
      returns (result: Instance, ghost next: Instance, ok: bool)
      requires Valid() && inst in instances
      modifies this
      ensures Valid()
      ensures ok <==> RestartsFully(inst, restart, a, shutdown)
      ensures Replaces(inst, restart, a) ==>
                && fresh(next) && instances == Without(old(instances), inst) + [next]
                && next.callbacks == a.callbacks && next.servers == a.servers
                && next.caddyfileInput == if newCaddyfile.Some? then newCaddyfile.value else inst.caddyfileInput
      ensures !Replaces(inst, restart, a) ==> instances == old(instances)
      ensures result == if ok then next else inst
      ensures events == old(events) + RestartRuns(inst, next, restart, a, shutdown)
    {
      hide AllSucceed, Runs, StartRuns, Without, Starts, NoDuplicates, RestartRuns, StopRuns;
      next := inst;
      ghost var start := events;
      ok := RunCallbacks(inst, BeforeRestart, restart);
      RestartStages(inst, inst, restart, a, shutdown, start);
      if !ok {
        return inst, inst, false;
      }
      var input := if newCaddyfile.Some? then newCaddyfile.value else inst.caddyfileInput;
      var newInst := new Instance();
      next := newInst;
      ok := StartWithListenerFds(input, newInst, true, a);
      RestartStages(inst, newInst, restart, a, shutdown, start);
      if !ok {
        return inst, newInst, false;
      }
      ReplacedInList(old(instances), inst, newInst);
      StopInstance(inst);
      ok := RunCallbacks(inst, Shutdown, shutdown);
      result := if ok then newInst else inst;
    }

    /** Stops every instance, from the first on: it ends, and no instance is left. */
    method StopAll()
      requires Valid()
      modifies this
      ensures Valid() && instances == []
      ensures events == old(events) + StopAllRuns(old(instances))
    {
      hide StopRuns;
      while |instances| > 0
        invariant Valid() && events + StopAllRuns(instances) == old(events) + StopAllRuns(old(instances))
        decreases |instances|
      {
        var inst := instances[0];
        ConcatAssociates(events, StopRuns(inst), StopAllRuns(instances[1..]));
        StopInstance(inst);
      }
      assert events + [] == events;
    }
  }

  // ---------------------------------------------------------------------------------------------
  // Whole runs
  // ---------------------------------------------------------------------------------------------

  /** An operation with how everything in it turns out; instances are named by their place in the list. */
  datatype Operation =
    | DoStart(input: Input, a: Attempt)
    | DoRestart(place: nat, newCaddyfile: Option<Input>, restart: Results, a: Attempt, shutdown: Results,
                failed: Results)
    | DoStop(place: nat)
    | DoStopAll

  /** How many instances run after some operations. */
  ghost function Running(n: nat, ops: seq<Operation>): nat {
    if ops == [] then n
    else
      var m := Running(n, ops[..|ops| - 1]);
      match ops[|ops| - 1]
      case DoStart(_, a) => if Starts(a, false) then m + 1 else m
      case DoRestart(_, _, _, _, _, _) => m
      case DoStop(place) => if place < m then m - 1 else m
      case DoStopAll => 0
  }

  lemma {:induction false} RunningOneMore(n: nat, ops: seq<Operation>, i: nat)
    requires i < |ops|
    ensures ops[..i + 1][..i] == ops[..i] && ops[..i + 1][i] == ops[i]
  {
  }

  /**
   Any operations, with anything in them failing: the list never has duplicates, and its length is
   what the successful starts and the stops alone make it. No restart changes it, failed or not.
   */
  method Run(p: Process, ops: seq<Operation>)
    requires p.Valid()
    modifies p
    ensures p.Valid() && |p.instances| == Running(|old(p.instances)|, ops)
  {
    hide Starts, Without, RestartRuns, StartRuns, RestartsFully, Replaces;
    for i := 0 to |ops|
      invariant p.Valid() && |p.instances| == Running(|old(p.instances)|, ops[..i])
    {
      RunningOneMore(|old(p.instances)|, ops, i);
      RunOne(p, ops[i]);
    }
    assert ops[..|ops|] == ops;
  }

  method RunOne(p: Process, op: Operation)
    requires p.Valid()
    modifies p
    ensures p.Valid()
    ensures match op
            case DoStart(_, a) => |p.instances| == |old(p.instances)| + if Starts(a, false) then 1 else 0
            case DoRestart(_, _, _, _, _, _) => |p.instances| == |old(p.instances)|
            case DoStop(place) => |p.instances| == |old(p.instances)| - if place < |old(p.instances)| then 1 else 0
            case DoStopAll => p.instances == []
  {
    hide Starts, Without, RestartRuns, StartRuns, RestartsFully, Replaces;
    match op
    case DoStart(input, a) =>
      var _, _ := p.Start(input, a);
    case DoRestart(place, newCaddyfile, restart, a, shutdown, failed) =>
      if place < |p.instances| {
        WithoutKeeps(p.instances, p.instances[place]);
        var _, _, _ := p.Restart(p.instances[place], newCaddyfile, restart, a, shutdown, failed);
      }
    case DoStop(place) =>
      if place < |p.instances| {
        WithoutKeeps(p.instances, p.instances[place]);
        p.StopInstance(p.instances[place]);
      }
    case DoStopAll =>
      p.StopAll();
  }

  /**
   A restart that reports failure has left the instance in place, whatever the callbacks and steps
   return, exactly when the instance has no shutdown callbacks.
   */
  lemma {:induction false} FailureKeepsIffNoShutdownCallbacks(inst: Instance)
    ensures (forall restart, a, shutdown :: !RestartsFully(inst, restart, a, shutdown) ==> !Replaces(inst, restart, a))
            <==> inst.callbacks(Shutdown) == 0
  {
    if inst.callbacks(Shutdown) > 0 {
      FailedAfterReplacing(inst);
    }
  }

  /** A start in which every step succeeds, without callbacks or servers. */
  function Smooth(): Attempt {
    Attempt(true, _ => 0, true, _ => true, _ => true, true, [])
  }

  /** A restart that fails after replacing: all goes well, but the old instance's shutdown callbacks fail. */
  lemma {:induction false} FailedAfterReplacing(inst: Instance)
    requires inst.callbacks(Shutdown) > 0
    ensures Replaces(inst, _ => true, Smooth()) && !RestartsFully(inst, _ => true, Smooth(), _ => false)
  {
    var no: Results := _ => false;
    assert !no(0);
  }

  /** The old instance is replaced: it let the restart begin, and the new one started. */
  ghost predicate Replaces(inst: Instance, restart: Results, a: Attempt)
    reads inst
  {
    AllSucceed(inst.callbacks(BeforeRestart), restart) && Starts(a, true)
  }

  /** The restart is reported as a success: in addition, every shutdown callback of the old instance succeeds. */
  ghost predicate RestartsFully(inst: Instance, restart: Results, a: Attempt, shutdown: Results)
    reads inst
  {
    Replaces(inst, restart, a) && AllSucceed(inst.callbacks(Shutdown), shutdown)
  }

  /** Where a restart stands in its callbacks when it ends early, and when it does not. */
  lemma {:induction false} RestartStages(inst: Instance, next: Instance, restart: Results, a: Attempt,
                                         shutdown: Results, start: seq<Event>)
    ensures var runs := start + Runs(inst, BeforeRestart, inst.callbacks(BeforeRestart), restart);
            start + RestartRuns(inst, next, restart, a, shutdown) ==
            if !AllSucceed(inst.callbacks(BeforeRestart), restart) then runs
            else if !Starts(a, true) then runs + StartRuns(next, a, true)
            else runs + StartRuns(next, a, true) + StopRuns(inst) +
                 Runs(inst, Shutdown, inst.callbacks(Shutdown), shutdown)
  {
    hide AllSucceed, Runs, StartRuns, Starts, StopRuns;
    var first := Runs(inst, BeforeRestart, inst.callbacks(BeforeRestart), restart);
    var starting, stopping := StartRuns(next, a, true), StopRuns(inst);
    var last := Runs(inst, Shutdown, inst.callbacks(Shutdown), shutdown);
    assert start + (first + (starting + (stopping + last))) == start + first + starting + stopping + last;
  }

  /** The callbacks a restart runs, and the servers it stops, before it is known whether it failed. */
  ghost function RestartRuns(inst: Instance, next: Instance, restart: Results, a: Attempt,
                             shutdown: Results): seq<Event>
    reads inst
  {
    Runs(inst, BeforeRestart, inst.callbacks(BeforeRestart), restart) +
    if !AllSucceed(inst.callbacks(BeforeRestart), restart) then []
    else StartRuns(next, a, true) +
         if !Starts(a, true) then []
         else StopRuns(inst) + Runs(inst, Shutdown, inst.callbacks(Shutdown), shutdown)
  }
}
