/**
 What the counters of a proxy's hosts say about the run that led to them, and what a request has seen
 of a host before it connects (caddyhttp/proxy/proxy.go:104-120 and :186-286).
 */
module ConnectionHistory {
  import opened Connections
  import opened Wrappers
  import Upstream

  // ---------------------------------------------------------------------------------------------
  // Counting what happened
  // ---------------------------------------------------------------------------------------------

  /** What can happen in a step, to a host or at large. */
  datatype Event =
    | Picks(host: nat)
    | Drops(host: nat)
    | Begins(host: nat)
    | Ends(host: nat)
    | Errors(host: nat)
    | Fails(host: nat)
    | Expires(host: nat)
    | Arrives
    | Finishes

  /** A request in a role takes the step. */
  predicate By(s: State, i: nat, role: Role) {
    i < |s.requests| && Has(s.requests[i], role)
  }

  /** The step keeps the host that its request is looking at, in place of the one kept before. */
  predicate PicksNow(limits: seq<Limits>, s: State, step: Step)
    requires WellFormed(limits, s)
  {
    && step.LookRoom? && step.keep && Looks(s, step.i) && s.requests[step.i].look.Up?
    && var h := s.requests[step.i].look.host;
       h < |limits| && (limits[h].maxConns > 0 ==> s.conns[h] < limits[h].maxConns)
  }

  predicate Happens(limits: seq<Limits>, s: State, step: Step, e: Event)
    requires WellFormed(limits, s)
  {
    match e
    case Picks(h) => PicksNow(limits, s, step) && s.requests[step.i].look.host == h
    case Drops(h) => (step.PassOver? || PicksNow(limits, s, step)) && By(s, step.i, PendingOn(h))
    case Begins(h) => step.Begin? && By(s, step.i, PendingOn(h))
    case Ends(h) => step.End? && By(s, step.i, ServingOn(h))
    case Errors(h) => step.End? && step.outcome == Error && By(s, step.i, ServingOn(h))
    case Fails(h) => step.AfterError? && By(s, step.i, FailedOn(h))
    case Expires(h) => step == Expire(h)
    case Arrives => step == Arrive
    case Finishes =>
      || (step.End? && step.outcome != Error) || (step.AfterError? && !step.retry) || (step.PassOver? && step.done)
  }

  /** How often something happened in a run. */
  function Tally(limits: seq<Limits>, crowd: nat, steps: seq<Step>, e: Event): nat {
    if steps == [] then 0
    else
      var before := steps[..|steps| - 1];
      var now := Run(limits, crowd, before);
      Tally(limits, crowd, before, e) + if now != [] && Happens(limits, now[0], steps[|steps| - 1], e) then 1 else 0
  }

  /** Whether the last check of a host, if there was one, found it unhealthy. */
  predicate LastUnhealthy(steps: seq<Step>, h: nat) {
    if steps == [] then false
    else
      var step := steps[|steps| - 1];
      if step.Check? && step.host == h then !step.healthy else LastUnhealthy(steps[..|steps| - 1], h)
  }

  ghost predicate Told(limits: seq<Limits>, crowd: nat, steps: seq<Step>, s: State, h: nat)
    requires WellFormed(limits, s) && h < |limits|
  {
    && s.conns[h] == Tally(limits, crowd, steps, Begins(h)) - Tally(limits, crowd, steps, Ends(h))
    && s.fails[h] ==
       (if limits[h].remembers then Tally(limits, crowd, steps, Fails(h)) else 0) -
       Tally(limits, crowd, steps, Expires(h))
    && s.unhealthy[h] == LastUnhealthy(steps, h)
    && Count(s.requests, PendingOn(h)) ==
       Tally(limits, crowd, steps, Picks(h)) - Tally(limits, crowd, steps, Drops(h)) -
       Tally(limits, crowd, steps, Begins(h))
    && Count(s.requests, FailedOn(h)) == Tally(limits, crowd, steps, Errors(h)) - Tally(limits, crowd, steps, Fails(h))
    && Count(s.requests, Finished) == Tally(limits, crowd, steps, Finishes)
    && |s.requests| == Tally(limits, crowd, steps, Arrives)
  }

  /** One step changes the counters of a host by what happens in it. */
  ghost predicate Tells(limits: seq<Limits>, s: State, step: Step, t: State, h: nat)
    requires WellFormed(limits, s) && WellFormed(limits, t) && h < |limits|
  {
    && t.conns[h] == s.conns[h] + One(Happens(limits, s, step, Begins(h))) - One(Happens(limits, s, step, Ends(h)))
    && t.fails[h] == s.fails[h] +
       One(limits[h].remembers && Happens(limits, s, step, Fails(h))) - One(Happens(limits, s, step, Expires(h)))
    && t.unhealthy[h] == (if step.Check? && step.host == h then !step.healthy else s.unhealthy[h])
    && Count(t.requests, PendingOn(h)) ==
       Count(s.requests, PendingOn(h)) + One(Happens(limits, s, step, Picks(h))) -
       One(Happens(limits, s, step, Drops(h))) - One(Happens(limits, s, step, Begins(h)))
    && Count(t.requests, FailedOn(h)) ==
       Count(s.requests, FailedOn(h)) + One(Happens(limits, s, step, Errors(h))) -
       One(Happens(limits, s, step, Fails(h)))
    && Count(t.requests, Finished) == Count(s.requests, Finished) + One(Happens(limits, s, step, Finishes))
    && |t.requests| == |s.requests| + One(Happens(limits, s, step, Arrives))
  }

  ghost predicate TellsNext(limits: seq<Limits>, crowd: nat, s: State, step: Step, h: nat)
    requires WellFormed(limits, s) && h < |limits|
  {
    Next(limits, crowd, s, step) != [] ==> Tells(limits, s, step, Next(limits, crowd, s, step)[0], h)
  }

  lemma {:induction false} LookTells(limits: seq<Limits>, crowd: nat, s: State, step: Step, h: nat)
    requires WellFormed(limits, s) && h < |limits| && (step.LookHealth? || step.LookFails?)
    ensures TellsNext(limits, crowd, s, step, h)
  {
    hide Count;
    if Next(limits, crowd, s, step) != [] {
      var t := Next(limits, crowd, s, step)[0];
      Moved(s, t, step.i, PendingOn(h));
      Moved(s, t, step.i, FailedOn(h));
      Moved(s, t, step.i, Finished);
    }
  }

  lemma {:induction false} RoomTells(limits: seq<Limits>, crowd: nat, s: State, step: Step, h: nat)
    requires WellFormed(limits, s) && h < |limits| && step.LookRoom?
    ensures TellsNext(limits, crowd, s, step, h)
  {
    hide Count;
    if Next(limits, crowd, s, step) != [] {
      var t := Next(limits, crowd, s, step)[0];
      Moved(s, t, step.i, PendingOn(h));
      Moved(s, t, step.i, FailedOn(h));
      Moved(s, t, step.i, Finished);
    }
  }

  lemma {:induction false} BeginTells(limits: seq<Limits>, crowd: nat, s: State, step: Step, h: nat)
    requires WellFormed(limits, s) && h < |limits| && step.Begin?
    ensures TellsNext(limits, crowd, s, step, h)
  {
    hide Count;
    if Next(limits, crowd, s, step) != [] {
      var t := Next(limits, crowd, s, step)[0];
      Moved(s, t, step.i, PendingOn(h));
      Moved(s, t, step.i, FailedOn(h));
      Moved(s, t, step.i, Finished);
    }
  }

  lemma {:induction false} PassOverTells(limits: seq<Limits>, crowd: nat, s: State, step: Step, h: nat)
    requires WellFormed(limits, s) && h < |limits| && step.PassOver?
    ensures TellsNext(limits, crowd, s, step, h)
  {
    hide Count;
    if Next(limits, crowd, s, step) != [] {
      var t := Next(limits, crowd, s, step)[0];
      Moved(s, t, step.i, PendingOn(h));
      Moved(s, t, step.i, FailedOn(h));
      Moved(s, t, step.i, Finished);
    }
  }

  lemma {:induction false} EndTells(limits: seq<Limits>, crowd: nat, s: State, step: Step, h: nat)
    requires WellFormed(limits, s) && h < |limits| && step.End?
    ensures TellsNext(limits, crowd, s, step, h)
  {
    hide Count;
    if Next(limits, crowd, s, step) != [] {
      var t := Next(limits, crowd, s, step)[0];
      Moved(s, t, step.i, PendingOn(h));
      Moved(s, t, step.i, FailedOn(h));
      Moved(s, t, step.i, Finished);
    }
  }

  lemma {:induction false} AfterErrorTells(limits: seq<Limits>, crowd: nat, s: State, step: Step, h: nat)
    requires WellFormed(limits, s) && h < |limits| && step.AfterError?
    ensures TellsNext(limits, crowd, s, step, h)
  {
    hide Count;
    if Next(limits, crowd, s, step) != [] {
      var t := Next(limits, crowd, s, step)[0];
      Moved(s, t, step.i, PendingOn(h));
      Moved(s, t, step.i, FailedOn(h));
      Moved(s, t, step.i, Finished);
    }
  }

  lemma {:induction false} OtherTells(limits: seq<Limits>, crowd: nat, s: State, step: Step, h: nat)
    requires WellFormed(limits, s) && h < |limits| && (step.Arrive? || step.Expire? || step.Check?)
    ensures TellsNext(limits, crowd, s, step, h)
  {
    hide Count;
    CountArrive(s.requests, Selecting(None, NoLook), PendingOn(h));
    CountArrive(s.requests, Selecting(None, NoLook), FailedOn(h));
    CountArrive(s.requests, Selecting(None, NoLook), Finished);
  }

  lemma {:induction false} StepTells(limits: seq<Limits>, crowd: nat, s: State, step: Step, h: nat)
    requires WellFormed(limits, s) && h < |limits|
    ensures TellsNext(limits, crowd, s, step, h)
  {
    hide TellsNext;
    if step.LookHealth? || step.LookFails? {
      LookTells(limits, crowd, s, step, h);
    } else if step.LookRoom? {
      RoomTells(limits, crowd, s, step, h);
    } else if step.Begin? {
      BeginTells(limits, crowd, s, step, h);
    } else if step.PassOver? {
      PassOverTells(limits, crowd, s, step, h);
    } else if step.End? {
      EndTells(limits, crowd, s, step, h);
    } else if step.AfterError? {
      AfterErrorTells(limits, crowd, s, step, h);
    } else {
      OtherTells(limits, crowd, s, step, h);
    }
  }

  /**
   In every reachable state a host's connections are the attempts begun on it less those ended, its
   failures are the errors remembered less those forgotten, its health is that of its last check, and
   every attempt that ended in an error counts as a failure once the request goes on.
   */
  lemma {:induction false} CountsAreHistory(limits: seq<Limits>, crowd: nat, steps: seq<Step>, h: nat)
    requires h < |limits|
    ensures Run(limits, crowd, steps) != [] ==> Told(limits, crowd, steps, Run(limits, crowd, steps)[0], h)
    decreases |steps|
  {
    hide Next, Happens, Count;
    if steps == [] {
      StartTold(limits, crowd, h);
    } else {
      var before := steps[..|steps| - 1];
      CountsAreHistory(limits, crowd, before, h);
      if Run(limits, crowd, before) != [] {
        StepTells(limits, crowd, Run(limits, crowd, before)[0], steps[|steps| - 1], h);
      }
    }
  }

  lemma {:induction false} StartTold(limits: seq<Limits>, crowd: nat, h: nat)
    requires h < |limits|
    ensures Told(limits, crowd, [], Init(limits), h)
  {
  }
  // ---------------------------------------------------------------------------------------------
  // What a request has seen
  // ---------------------------------------------------------------------------------------------

  /** The request at i begins an attempt. */
  predicate BeginsBy(step: Step, i: nat) {
    step.Begin? && step.i == i
  }

  /** The state in which a step of a run is taken, since which the request at i has begun no attempt. */
  ghost predicate Before(limits: seq<Limits>, crowd: nat, steps: seq<Step>, k: nat, s: State, i: nat) {
    && k < |steps| && Run(limits, crowd, steps[..k]) == [s]
    && forall m :: k < m < |steps| ==> !BeginsBy(steps[m], i)
  }

  /** The request has seen the host healthy. */
  ghost predicate SawHealthy(limits: seq<Limits>, crowd: nat, steps: seq<Step>, i: nat, h: nat)
    requires h < |limits|
  {
    exists k: nat, s :: Before(limits, crowd, steps, k, s, i) && steps[k] == LookHealth(i, h) && !s.unhealthy[h]
  }

  /** After that, it has seen fewer failures than the host may have. */
  ghost predicate SawUp(limits: seq<Limits>, crowd: nat, steps: seq<Step>, i: nat, h: nat)
    requires h < |limits|
  {
    exists k: nat, s ::
      && Before(limits, crowd, steps, k, s, i) && steps[k] == LookFails(i) && s.fails[h] < limits[h].maxFails
      && SawHealthy(limits, crowd, steps[..k], i, h)
  }

  /** And after that, room for one more connection. */
  ghost predicate SawRoom(limits: seq<Limits>, crowd: nat, steps: seq<Step>, i: nat, h: nat)
    requires h < |limits|
  {
    exists k: nat, s ::
      && Before(limits, crowd, steps, k, s, i) && steps[k] == LookRoom(i, true)
      && (limits[h].maxConns > 0 ==> s.conns[h] < limits[h].maxConns)
      && SawUp(limits, crowd, steps[..k], i, h)
  }

  /** It has begun an attempt on the host when it had seen all that. */
  ghost predicate Began(limits: seq<Limits>, crowd: nat, steps: seq<Step>, i: nat, h: nat)
    requires h < |limits|
  {
    exists k: nat, s ::
      Before(limits, crowd, steps, k, s, i) && steps[k] == Begin(i) && SawRoom(limits, crowd, steps[..k], i, h)
  }

  /** What a request has seen by the phase it is in. */
  ghost predicate Saw(limits: seq<Limits>, crowd: nat, steps: seq<Step>, i: nat, p: Phase) {
    match p
    case Selecting(kept, look) =>
      && (kept.Some? ==> kept.value < |limits| && SawRoom(limits, crowd, steps, i, kept.value))
      && (look.Healthy? ==> look.host < |limits| && SawHealthy(limits, crowd, steps, i, look.host))
      && (look.Up? ==> look.host < |limits| && SawUp(limits, crowd, steps, i, look.host))
    case Serving(h) => h < |limits| && Began(limits, crowd, steps, i, h)
    case Failed(h) => h < |limits| && Began(limits, crowd, steps, i, h)
    case Done => true
  }

  lemma {:induction false} BeforeStill(limits: seq<Limits>, crowd: nat, steps: seq<Step>, step: Step, k: nat, s: State,
                                       i: nat)
    requires Before(limits, crowd, steps, k, s, i) && !BeginsBy(step, i)
    ensures Before(limits, crowd, steps + [step], k, s, i) && (steps + [step])[k] == steps[k]
    ensures (steps + [step])[..k] == steps[..k]
  {
    assert (steps + [step])[..k] == steps[..k];
  }

  lemma {:induction false} BeforeLast(limits: seq<Limits>, crowd: nat, steps: seq<Step>, step: Step, s: State, i: nat)
    requires Run(limits, crowd, steps) == [s]
    ensures Before(limits, crowd, steps + [step], |steps|, s, i) && (steps + [step])[|steps|] == step
    ensures (steps + [step])[..|steps|] == steps
  {
    assert (steps + [step])[..|steps|] == steps;
  }

  /** What has been seen stays so, until the request begins an attempt. */
  lemma {:induction false} SawStill(limits: seq<Limits>, crowd: nat, steps: seq<Step>, step: Step, i: nat, h: nat)
    requires h < |limits| && !BeginsBy(step, i)
    ensures SawHealthy(limits, crowd, steps, i, h) ==> SawHealthy(limits, crowd, steps + [step], i, h)
    ensures SawUp(limits, crowd, steps, i, h) ==> SawUp(limits, crowd, steps + [step], i, h)
    ensures SawRoom(limits, crowd, steps, i, h) ==> SawRoom(limits, crowd, steps + [step], i, h)
    ensures Began(limits, crowd, steps, i, h) ==> Began(limits, crowd, steps + [step], i, h)
  {
    hide Run, BeginsBy;
    forall k: nat, s | Before(limits, crowd, steps, k, s, i)
      ensures Before(limits, crowd, steps + [step], k, s, i) && (steps + [step])[k] == steps[k]
      ensures (steps + [step])[..k] == steps[..k]
    {
      BeforeStill(limits, crowd, steps, step, k, s, i);
    }
  }

  lemma {:induction false} PhaseStill(limits: seq<Limits>, crowd: nat, steps: seq<Step>, step: Step, i: nat, p: Phase)
    requires Saw(limits, crowd, steps, i, p) && !BeginsBy(step, i)
    ensures Saw(limits, crowd, steps + [step], i, p)
  {
    hide SawHealthy, SawUp, SawRoom, Began, BeginsBy;
    forall h: nat | h < |limits|
      ensures SawHealthy(limits, crowd, steps, i, h) ==> SawHealthy(limits, crowd, steps + [step], i, h)
      ensures SawUp(limits, crowd, steps, i, h) ==> SawUp(limits, crowd, steps + [step], i, h)
      ensures SawRoom(limits, crowd, steps, i, h) ==> SawRoom(limits, crowd, steps + [step], i, h)
      ensures Began(limits, crowd, steps, i, h) ==> Began(limits, crowd, steps + [step], i, h)
    {
      SawStill(limits, crowd, steps, step, i, h);
    }
  }

  /** What the last step shows. */
  lemma {:induction false} LastShows(limits: seq<Limits>, crowd: nat, steps: seq<Step>, step: Step, s: State, i: nat,
                                     h: nat)
    requires Run(limits, crowd, steps) == [s] && h < |limits| && WellFormed(limits, s)
    ensures step == LookHealth(i, h) && !s.unhealthy[h] ==> SawHealthy(limits, crowd, steps + [step], i, h)
    ensures step == LookFails(i) && s.fails[h] < limits[h].maxFails && SawHealthy(limits, crowd, steps, i, h) ==>
              SawUp(limits, crowd, steps + [step], i, h)
    ensures step == LookRoom(i, true) && (limits[h].maxConns > 0 ==> s.conns[h] < limits[h].maxConns) ==>
              SawUp(limits, crowd, steps, i, h) ==> SawRoom(limits, crowd, steps + [step], i, h)
    ensures step == Begin(i) && SawRoom(limits, crowd, steps, i, h) ==> Began(limits, crowd, steps + [step], i, h)
  {
    hide Run, Before;
    BeforeLast(limits, crowd, steps, step, s, i);
  }

  /** A step of the request at i, or of another, keeps it right about what it has seen. */
  lemma {:induction false} StepSees(limits: seq<Limits>, crowd: nat, steps: seq<Step>, step: Step, s: State, t: State,
                                    i: nat)
    requires Run(limits, crowd, steps) == [s] && WellFormed(limits, s) && Next(limits, crowd, s, step) == [t]
    requires i < |s.requests| && Saw(limits, crowd, steps, i, s.requests[i])
    ensures i < |t.requests| && Saw(limits, crowd, steps + [step], i, t.requests[i])
  {
    hide SawHealthy, SawUp, SawRoom, Began, Run, Count;
    var p := s.requests[i];
    if !BeginsBy(step, i) {
      PhaseStill(limits, crowd, steps, step, i, p);
    }
    if t.requests[i] != p {
      match step
      case LookHealth(_, h) => LastShows(limits, crowd, steps, step, s, i, h);
      case LookFails(_) => LastShows(limits, crowd, steps, step, s, i, p.look.host);
      case LookRoom(_, _) => LastShows(limits, crowd, steps, step, s, i, p.look.host);
      case Begin(_) => LastShows(limits, crowd, steps, step, s, i, p.kept.value);
      case _ =>
    }
  }

  lemma {:induction false} AllSee(limits: seq<Limits>, crowd: nat, steps: seq<Step>, i: nat)
    requires Run(limits, crowd, steps) != [] && i < |Run(limits, crowd, steps)[0].requests|
    ensures Saw(limits, crowd, steps, i, Run(limits, crowd, steps)[0].requests[i])
    decreases |steps|
  {
    hide Next, Saw;
    if steps != [] {
      var before, step := steps[..|steps| - 1], steps[|steps| - 1];
      assert steps == before + [step];
      var s, t := Run(limits, crowd, before)[0], Run(limits, crowd, steps)[0];
      if i < |s.requests| {
        AllSee(limits, crowd, before, i);
        StepSees(limits, crowd, before, step, s, t, i);
      } else {
        NewSees(limits, crowd, s, step, t, steps, i);
      }
    }
  }

  /** A request that has just come has seen nothing. */
  lemma {:induction false} NewSees(limits: seq<Limits>, crowd: nat, s: State, step: Step, t: State, steps: seq<Step>,
                                   i: nat)
    requires WellFormed(limits, s) && Next(limits, crowd, s, step) == [t] && |s.requests| <= i < |t.requests|
    ensures Saw(limits, crowd, steps, i, t.requests[i])
  {
    hide Count, Run, SawHealthy, SawUp, SawRoom, Began;
  }

  /**
   In every reachable state a request that is about to connect to a host has, since its last attempt,
   seen it healthy, then with fewer failures than it may have, then with room; and one that is
   connected to it began so.
   */
  lemma {:induction false} OnlyAvailableHosts(limits: seq<Limits>, crowd: nat, steps: seq<Step>, i: nat, h: nat)
    requires Run(limits, crowd, steps) != [] && i < |Run(limits, crowd, steps)[0].requests|
    ensures var p := Run(limits, crowd, steps)[0].requests[i];
            && (Has(p, PendingOn(h)) ==> h < |limits| && SawRoom(limits, crowd, steps, i, h))
            && (Has(p, ServingOn(h)) ==> h < |limits| && Began(limits, crowd, steps, i, h))
            && (Has(p, FailedOn(h)) ==> h < |limits| && Began(limits, crowd, steps, i, h))
  {
    hide Run, SawRoom, Began, SawHealthy, SawUp;
    AllSee(limits, crowd, steps, i);
  }

  // ---------------------------------------------------------------------------------------------
  // The three looks are the check of availability
  // ---------------------------------------------------------------------------------------------

  /** A host of the state as a policy sees it. */
  function HostIn(limits: seq<Limits>, s: State, h: nat): Upstream.Host
    requires WellFormed(limits, s) && h < |limits|
  {
    Upstream.Host(s.conns[h], limits[h].maxConns, if s.unhealthy[h] then 1 else 0, s.fails[h], Some(limits[h].maxFails))
  }

  /** The state after three looks in a row at one host, the last of which keeps it if it can. */
  function ThreeLooks(limits: seq<Limits>, crowd: nat, s: State, i: nat, h: nat): (r: seq<State>)
    requires WellFormed(limits, s) && Looks(s, i) && h < |limits|
    ensures |r| <= 1
  {
    var healthy := Next(limits, crowd, s, LookHealth(i, h));
    var up := if healthy == [] then [] else Next(limits, crowd, healthy[0], LookFails(i));
    if up == [] then [] else Next(limits, crowd, up[0], LookRoom(i, true))
  }

  /** With nothing in between, they end with the request pending on the host exactly when it is available. */
  lemma {:induction false} LooksAreAvailable(limits: seq<Limits>, crowd: nat, s: State, i: nat, h: nat)
    requires WellFormed(limits, s) && Looks(s, i) && h < |limits| && s.requests[i].kept == None
    requires Count(s.requests, PendingOn(h)) < crowd
    ensures HostIn(limits, s, h).Available() <==>
            var r := ThreeLooks(limits, crowd, s, i, h); r != [] && By(r[0], i, PendingOn(h))
  {
    hide Count;
    var healthy := Selecting(None, Healthy(h));
    var up := Selecting(None, Up(h));
    CountMove(s.requests, i, healthy, PendingOn(h));
    CountMove(s.requests[i := healthy], i, up, PendingOn(h));
  }
}
