/**
 Which callbacks run, which servers are told to stop, and in what order, when an instance is started,
 restarted, stopped or shut down (caddy.go:139-270 and :508-545).
 */
module LifecycleEvents {
  import opened Lifecycle

  // ---------------------------------------------------------------------------------------------
  // Order
  // ---------------------------------------------------------------------------------------------

  /** The order in which the kinds of events come. */
  function Rank(e: Event): nat {
    match e
    case Stopped(_, _) => 3
    case Ran(_, occasion, _) => RankOf(occasion)
  }

  function RankOf(occasion: Occasion): nat {
    match occasion
    case BeforeRestart => 0
    case FirstStartup => 1
    case Startup => 2
    case Shutdown => 4
    case FinalShutdown => 5
    case RestartFailed => 6
  }

  predicate Earlier(e: Event, f: Event) {
    Rank(e) < Rank(f) || (Rank(e) == Rank(f) && e.index < f.index)
  }

  /** Kind by kind, and by position within each. */
  ghost predicate InTurn(events: seq<Event>) {
    forall i, j :: 0 <= i < j < |events| ==> Earlier(events[i], events[j])
  }

  /** So nothing comes twice. */
  lemma {:induction false} InTurnOnce(events: seq<Event>, e: Event)
    requires InTurn(events) && e in events
    ensures multiset(events)[e] == 1
    decreases |events|
  {
    hide Earlier;
    assert events == [events[0]] + events[1..];
    RestInTurn(events);
    if e != events[0] {
      InTurnOnce(events[1..], e);
    }
  }

  lemma {:induction false} RestInTurn(events: seq<Event>)
    requires InTurn(events) && events != []
    ensures InTurn(events[1..]) && events[0] !in events[1..]
  {
    forall j | 0 <= j < |events[1..]|
      ensures events[1..][j] != events[0]
    {
      assert Earlier(events[0], events[j + 1]);
    }
  }

  /** The kinds are within bounds. */
  ghost predicate Within(events: seq<Event>, low: nat, high: nat) {
    forall i :: 0 <= i < |events| ==> low <= Rank(events[i]) <= high
  }

  /** Kinds one after the other. */
  lemma {:induction false} InTurnConcat(a: seq<Event>, b: seq<Event>, low: nat, r: nat, high: nat)
    requires InTurn(a) && InTurn(b) && Within(a, low, r) && Within(b, r + 1, high) && low <= r < high
    ensures InTurn(a + b) && Within(a + b, low, high)
  {
    var s := a + b;
    forall i, j | 0 <= i < j < |s|
      ensures Earlier(s[i], s[j])
    {
      if i >= |a| {
        assert s[i] == b[i - |a|] && s[j] == b[j - |a|];
      }
    }
  }

  // ---------------------------------------------------------------------------------------------
  // Runs of callbacks
  // ---------------------------------------------------------------------------------------------

  /** A callback of an occasion, one of the first n. */
  predicate OneOf(e: Event, inst: Instance, occasion: Occasion, n: nat) {
    e.Ran? && e.inst == inst && e.occasion == occasion && e.index < n
  }

  /** All callbacks of an occasion run, in order, each once, and nothing else. */
  lemma {:induction false} RunsAllAre(inst: Instance, occasion: Occasion, n: nat, e: Event)
    ensures e in RunsAll(inst, occasion, n) <==> OneOf(e, inst, occasion, n)
    ensures InTurn(RunsAll(inst, occasion, n)) && Within(RunsAll(inst, occasion, n), RankOf(occasion), RankOf(occasion))
  {
    var runs := RunsAll(inst, occasion, n);
    if OneOf(e, inst, occasion, n) {
      assert runs[e.index] == e;
    }
  }

  ghost predicate AllBefore(k: nat, e: Event, results: Results) {
    forall j :: k <= j < e.index ==> results(j)
  }

  /** Starting with the k-th callback: at each place of the list is the one that many further on. */
  lemma {:induction false} RunsFromAt(inst: Instance, occasion: Occasion, k: nat, n: nat, results: Results)
    requires k <= n
    ensures var runs := RunsFrom(inst, occasion, k, n, results);
            |runs| <= n - k && forall i :: 0 <= i < |runs| ==> runs[i] == Ran(inst, occasion, k + i)
    decreases n - k
  {
    if k < n && results(k) {
      RunsFromAt(inst, occasion, k + 1, n, results);
      var rest := RunsFrom(inst, occasion, k + 1, n, results);
      var runs := [Ran(inst, occasion, k)] + rest;
      forall i | 0 <= i < |runs|
        ensures runs[i] == Ran(inst, occasion, k + i)
      {
        assert i > 0 ==> runs[i] == rest[i - 1];
      }
    }
  }

  lemma {:induction false} RunsFromAre(inst: Instance, occasion: Occasion, k: nat, n: nat, results: Results, e: Event)
    requires k <= n
    ensures e in RunsFrom(inst, occasion, k, n, results) <==>
            OneOf(e, inst, occasion, n) && k <= e.index && AllBefore(k, e, results)
    decreases n - k
  {
    if k < n {
      RunsFromAre(inst, occasion, k + 1, n, results, e);
    }
  }

  /** When a failure ends the run, a callback runs if and only if all those before it succeed. */
  lemma {:induction false} RunsAre(inst: Instance, occasion: Occasion, n: nat, results: Results, e: Event)
    ensures e in Runs(inst, occasion, n, results) <==> OneOf(e, inst, occasion, n) && AllBefore(0, e, results)
    ensures InTurn(Runs(inst, occasion, n, results))
    ensures Within(Runs(inst, occasion, n, results), RankOf(occasion), RankOf(occasion))
  {
    RunsFromAre(inst, occasion, 0, n, results, e);
    RunsFromAt(inst, occasion, 0, n, results);
  }

  /** A server is told to stop if and only if it can be. */
  lemma {:induction false} StopsAre(inst: Instance, servers: seq<bool>, n: nat, e: Event)
    requires n <= |servers|
    ensures e in Stops(inst, servers, n) <==> e.Stopped? && e.inst == inst && e.index < n && servers[e.index]
  {
    if n > 0 {
      StopsAre(inst, servers, n - 1, e);
    }
  }

  lemma {:induction false} StopsInTurn(inst: Instance, servers: seq<bool>, n: nat)
    requires n <= |servers|
    ensures var stops := Stops(inst, servers, n);
            && InTurn(stops) && Within(stops, 3, 3)
            && forall i :: 0 <= i < |stops| ==> stops[i].Stopped? && stops[i].inst == inst && stops[i].index < n
  {
    if n > 0 {
      StopsInTurn(inst, servers, n - 1);
    }
  }

  // ---------------------------------------------------------------------------------------------
  // Operations
  // ---------------------------------------------------------------------------------------------

  /** What happens when an instance is started: each callback as it is its turn, until something fails. */
  ghost predicate HappensInStart(e: Event, inst: Instance, a: Attempt, restart: bool) {
    && a.validates && a.makesServers
    && (|| (!restart && OneOf(e, inst, FirstStartup, a.callbacks(FirstStartup)) && AllBefore(0, e, a.first))
        || (&& (restart || AllSucceed(a.callbacks(FirstStartup), a.first))
            && OneOf(e, inst, Startup, a.callbacks(Startup)) && AllBefore(0, e, a.startup)))
  }

  lemma {:induction false} StartEvents(inst: Instance, a: Attempt, restart: bool, e: Event)
    ensures e in StartRuns(inst, a, restart) <==> HappensInStart(e, inst, a, restart)
    ensures InTurn(StartRuns(inst, a, restart)) && Within(StartRuns(inst, a, restart), 1, 2)
  {
    hide Runs, AllSucceed, AllBefore, Earlier;
    RunsAre(inst, FirstStartup, a.callbacks(FirstStartup), a.first, e);
    RunsAre(inst, Startup, a.callbacks(Startup), a.startup, e);
    var first := if restart then [] else Runs(inst, FirstStartup, a.callbacks(FirstStartup), a.first);
    var second := if restart || AllSucceed(a.callbacks(FirstStartup), a.first)
                  then Runs(inst, Startup, a.callbacks(Startup), a.startup) else [];
    InTurnConcat(first, second, 1, 1, 2);
  }

  /** The outcomes of all the steps of a start, in order. */
  function Outcomes(a: Attempt, restart: bool): seq<bool> {
    [a.validates, a.makesServers] +
    ((if restart then [] else FirstOf(a.callbacks(FirstStartup), a.first)) +
     (FirstOf(a.callbacks(Startup), a.startup) + [a.startsServers]))
  }

  function FirstOf(n: nat, results: Results): seq<bool> {
    seq(n, k requires 0 <= k < n => results(k))
  }

  /** A start succeeds if and only if every step of it does. */
  lemma {:induction false} StartsIffAll(a: Attempt, restart: bool)
    ensures Starts(a, restart) <==> false !in Outcomes(a, restart)
  {
    hide AllSucceed, FirstOf;
    var first := if restart then [] else FirstOf(a.callbacks(FirstStartup), a.first);
    var second := FirstOf(a.callbacks(Startup), a.startup);
    assert false in Outcomes(a, restart) <==>
           || !a.validates || !a.makesServers || false in first || false in second || !a.startsServers;
    AllSucceedIff(a.callbacks(FirstStartup), a.first);
    AllSucceedIff(a.callbacks(Startup), a.startup);
  }

  lemma {:induction false} AllSucceedIff(n: nat, results: Results)
    ensures AllSucceed(n, results) <==> false !in FirstOf(n, results)
  {
    var all := FirstOf(n, results);
    forall k | 0 <= k < n && !results(k)
      ensures false in all
    {
      assert all[k] == results(k);
    }
  }

  /** What happens in a restart, by occasion. */
  ghost predicate HappensInRestart(e: Event, inst: Instance, next: Instance, restart: Results, a: Attempt,
                                   shutdown: Results)
    reads inst
  {
    match e
    case Stopped(x, k) => x == inst && Replaces(inst, restart, a) && k < |inst.servers| && inst.servers[k]
    case Ran(x, occasion, k) =>
      match occasion
      case BeforeRestart => x == inst && k < inst.callbacks(BeforeRestart) && AllBefore(0, e, restart)
      case Startup =>
        && x == next && AllSucceed(inst.callbacks(BeforeRestart), restart) && a.validates && a.makesServers
        && k < a.callbacks(Startup) && AllBefore(0, e, a.startup)
      case Shutdown =>
        x == inst && Replaces(inst, restart, a) && k < inst.callbacks(Shutdown) && AllBefore(0, e, shutdown)
      case RestartFailed => x == inst && !RestartsFully(inst, restart, a, shutdown) && k < inst.callbacks(RestartFailed)
      case FirstStartup => false
      case FinalShutdown => false
  }

  /** All that a restart does, the callbacks for a failed one included. */
  ghost function AllRuns(inst: Instance, next: Instance, restart: Results, a: Attempt, shutdown: Results): seq<Event>
    reads inst
  {
    RestartRuns(inst, next, restart, a, shutdown) +
    if RestartsFully(inst, restart, a, shutdown) then []
    else RunsAll(inst, RestartFailed, inst.callbacks(RestartFailed))
  }

  /** Its five stages, each of which may be skipped. */
  lemma {:induction false} Stages(inst: Instance, next: Instance, restart: Results, a: Attempt, shutdown: Results)
    ensures var replaced := Replaces(inst, restart, a);
            AllRuns(inst, next, restart, a, shutdown) ==
            Runs(inst, BeforeRestart, inst.callbacks(BeforeRestart), restart) +
            ((if AllSucceed(inst.callbacks(BeforeRestart), restart) then StartRuns(next, a, true) else []) +
             ((if replaced then StopRuns(inst) else []) +
              ((if replaced then Runs(inst, Shutdown, inst.callbacks(Shutdown), shutdown) else []) +
               if RestartsFully(inst, restart, a, shutdown) then []
               else RunsAll(inst, RestartFailed, inst.callbacks(RestartFailed)))))
  {
    hide Runs, RunsAll, StartRuns, AllSucceed, Starts, Stops;
  }

  /**
   In a restart the callbacks for it run first, up to a failure; then those of the new instance's
   start; only when that has fully started are the old servers told to stop, each that can be, and then
   the old instance's shutdown callbacks run; and on a failure anywhere all callbacks for that come
   last. Each runs once, in order, and nothing else happens.
   */
  lemma {:induction false} RestartEvents(inst: Instance, next: Instance, restart: Results, a: Attempt,
                                         shutdown: Results, e: Event)
    ensures e in AllRuns(inst, next, restart, a, shutdown) <==> HappensInRestart(e, inst, next, restart, a, shutdown)
    ensures InTurn(AllRuns(inst, next, restart, a, shutdown))
  {
    hide Runs, RunsAll, AllSucceed, AllBefore, Starts, StartRuns, Stops, InTurn, AllRuns;
    RunsAre(inst, BeforeRestart, inst.callbacks(BeforeRestart), restart, e);
    RunsAre(inst, Shutdown, inst.callbacks(Shutdown), shutdown, e);
    RunsAllAre(inst, RestartFailed, inst.callbacks(RestartFailed), e);
    StartEvents(next, a, true, e);
    StopsAre(inst, inst.servers, |inst.servers|, e);
    Stages(inst, next, restart, a, shutdown);
    RestartInTurn(inst, next, restart, a, shutdown);
  }

  lemma {:induction false} RestartInTurn(inst: Instance, next: Instance, restart: Results, a: Attempt,
                                         shutdown: Results)
    ensures InTurn(AllRuns(inst, next, restart, a, shutdown))
  {
    hide Runs, RunsAll, AllSucceed, AllBefore, Starts, StartRuns, StopRuns, InTurn, Within, AllRuns, Replaces;
    hide RestartsFully, OneOf, HappensInStart;
    var begun, replaced := AllSucceed(inst.callbacks(BeforeRestart), restart), Replaces(inst, restart, a);
    var before := Runs(inst, BeforeRestart, inst.callbacks(BeforeRestart), restart);
    var starting := if begun then StartRuns(next, a, true) else [];
    var stopping := if replaced then StopRuns(inst) else [];
    var ending := if replaced then Runs(inst, Shutdown, inst.callbacks(Shutdown), shutdown) else [];
    var failing := if RestartsFully(inst, restart, a, shutdown) then []
                   else RunsAll(inst, RestartFailed, inst.callbacks(RestartFailed));
    var e := Stopped(inst, 0);
    RunsAre(inst, BeforeRestart, inst.callbacks(BeforeRestart), restart, e);
    RunsAre(inst, Shutdown, inst.callbacks(Shutdown), shutdown, e);
    RunsAllAre(inst, RestartFailed, inst.callbacks(RestartFailed), e);
    StartEvents(next, a, true, e);
    StopRunsAre(inst, e);
    Nothing(1, 2);
    Nothing(3, 3);
    Nothing(4, 4);
    Nothing(6, 6);
    Wider(failing);
    InTurnConcat(ending, failing, 4, 4, 6);
    InTurnConcat(stopping, ending + failing, 3, 3, 6);
    InTurnConcat(starting, stopping + (ending + failing), 1, 2, 6);
    InTurnConcat(before, starting + (stopping + (ending + failing)), 0, 0, 6);
    Stages(inst, next, restart, a, shutdown);
  }

  lemma {:induction false} Nothing(low: nat, high: nat)
    ensures InTurn([]) && Within([], low, high)
  {
  }

  lemma {:induction false} Wider(events: seq<Event>)
    requires Within(events, 6, 6)
    ensures Within(events, 5, 6)
  {
  }

  /** At a shutdown all callbacks for it run, then all for a final one, each once. */
  lemma {:induction false} ShutdownEvents(inst: Instance, e: Event)
    ensures var all := RunsAll(inst, Shutdown, inst.callbacks(Shutdown)) +
                       RunsAll(inst, FinalShutdown, inst.callbacks(FinalShutdown));
            && InTurn(all)
            && (e in all <==> || OneOf(e, inst, Shutdown, inst.callbacks(Shutdown))
                              || OneOf(e, inst, FinalShutdown, inst.callbacks(FinalShutdown)))
  {
    hide RunsAll, InTurn, Within;
    RunsAllAre(inst, Shutdown, inst.callbacks(Shutdown), e);
    RunsAllAre(inst, FinalShutdown, inst.callbacks(FinalShutdown), e);
    InTurnConcat(RunsAll(inst, Shutdown, inst.callbacks(Shutdown)),
                 RunsAll(inst, FinalShutdown, inst.callbacks(FinalShutdown)), 4, 4, 5);
  }

  /** When all instances are stopped, every server of theirs that can be told to stop is told so, and nothing else. */
  lemma {:induction false} StopAllEvents(list: seq<Instance>, e: Event)
    ensures e in StopAllRuns(list) <==>
            e.Stopped? && e.inst in list && e.index < |e.inst.servers| && e.inst.servers[e.index]
    decreases |list|
  {
    if list != [] {
      StopsAre(list[0], list[0].servers, |list[0].servers|, e);
      StopAllEvents(list[1..], e);
    }
  }

  /** Each is told once. */
  lemma {:induction false} StopAllOnce(list: seq<Instance>, e: Event)
    requires NoDuplicates(list) && e in StopAllRuns(list)
    ensures multiset(StopAllRuns(list))[e] == 1
    decreases |list|
  {
    hide StopRuns, InTurn;
    var first, rest := StopRuns(list[0]), StopAllRuns(list[1..]);
    StopRunsAre(list[0], e);
    StopAllEvents(list[1..], e);
    assert NoDuplicates(list[1..]) && list[0] !in list[1..];
    if e in first {
      InTurnOnce(first, e);
    } else {
      StopAllOnce(list[1..], e);
    }
  }

  lemma {:induction false} StopRunsAre(inst: Instance, e: Event)
    ensures InTurn(StopRuns(inst)) && Within(StopRuns(inst), 3, 3)
    ensures e in StopRuns(inst) ==> e.Stopped? && e.inst == inst
  {
    hide InTurn, Within;
    StopsInTurn(inst, inst.servers, |inst.servers|);
  }
}
