/**
 Connection and failure accounting (caddyhttp/proxy/proxy.go, the attempt loop of ServeHTTP, and
 the checks Down and Full): requests run concurrently, every load and every add is one atomic step,
 and any request may take the next one. Counters are not bounded here.
 */
module Connections {
  import opened Wrappers

  /** How far a request has come in checking a host: its health is good; so is its count of failures. */
  datatype Look = NoLook | Healthy(host: nat) | Up(host: nat)

  /**
   Where a request stands. While it selects, it may keep a host it saw available and look at others,
   as policies do that scan the whole pool; from then until it adds to the host's count it is pending
   on that host.
   */
  datatype Phase =
    | Selecting(kept: Option<nat>, look: Look)
    | Serving(host: nat)
    | Failed(host: nat)
    | Done

  /** What a host is configured with; maxFails is that of its upstream, or one by default. */
  datatype Limits = Limits(maxConns: int, maxFails: int, remembers: bool)

  datatype State = State(conns: seq<int>, fails: seq<int>, unhealthy: seq<bool>,
                         requests: seq<Phase>, timers: multiset<nat>)

  datatype Outcome = Served | Refused | Error

  datatype Step =
    | Arrive
    | LookHealth(i: nat, host: nat)
    | LookFails(i: nat)
    | LookRoom(i: nat, keep: bool)
    | PassOver(i: nat, done: bool)
    | Begin(i: nat)
    | End(i: nat, outcome: Outcome)
    | AfterError(i: nat, retry: bool)
    | Expire(host: nat)
    | Check(host: nat, healthy: bool)

  /** What requests are counted by. */
  datatype Role = ServingOn(host: nat) | PendingOn(host: nat) | FailedOn(host: nat) | Finished

  predicate Has(p: Phase, role: Role) {
    match role
    case ServingOn(h) => p == Serving(h)
    case PendingOn(h) => p.Selecting? && p.kept == Some(h)
    case FailedOn(h) => p == Failed(h)
    case Finished => p == Done
  }

  function Count(requests: seq<Phase>, role: Role): nat {
    if requests == [] then 0 else Count(requests[1..], role) + if Has(requests[0], role) then 1 else 0
  }

  predicate WellFormed(limits: seq<Limits>, s: State) {
    |s.conns| == |s.fails| == |s.unhealthy| == |limits|
  }

  function Init(limits: seq<Limits>): (s: State)
    ensures WellFormed(limits, s)
  {
    State(seq(|limits|, _ => 0), seq(|limits|, _ => 0), seq(|limits|, _ => false), [], multiset{})
  }

  /** The request at i is in a phase of looking at hosts. */
  predicate Looks(s: State, i: nat) {
    i < |s.requests| && s.requests[i].Selecting?
  }

  function Move(s: State, i: nat, p: Phase): State
    requires i < |s.requests|
  {
    s.(requests := s.requests[i := p])
  }

  /** A request that looks on, having kept what it had. */
  function LookOn(s: State, i: nat, look: Look): State
    requires Looks(s, i)
  {
    Move(s, i, Selecting(s.requests[i].kept, look))
  }

  /** The check of a host's connections, once it is known to be up. */
  function LookedRoom(limits: seq<Limits>, crowd: nat, s: State, i: nat, keep: bool): (r: seq<State>)
    requires WellFormed(limits, s) && Looks(s, i) && s.requests[i].look.Up? && s.requests[i].look.host < |limits|
    ensures |r| <= 1 && forall i :: 0 <= i < |r| ==> WellFormed(limits, r[i])
  {
    var h := s.requests[i].look.host;
    if (limits[h].maxConns > 0 && s.conns[h] >= limits[h].maxConns) || !keep then [LookOn(s, i, NoLook)]
    else if Count(s.requests, PendingOn(h)) < crowd then [Move(s, i, Selecting(Some(h), NoLook))]
    else []
  }

  /** One step, where it can be taken; at most `crowd` requests are pending on a host at once. */
  function Next(limits: seq<Limits>, crowd: nat, s: State, step: Step): (r: seq<State>)
    requires WellFormed(limits, s)
    ensures |r| <= 1 && forall i :: 0 <= i < |r| ==> WellFormed(limits, r[i])
  {
    match step
    case Arrive => [s.(requests := s.requests + [Selecting(None, NoLook)])]
    case LookHealth(i, h) =>
      if Looks(s, i) && h < |limits| then [LookOn(s, i, if s.unhealthy[h] then NoLook else Healthy(h))] else []
    case LookFails(i) =>
      if Looks(s, i) && s.requests[i].look.Healthy? && s.requests[i].look.host < |limits| then
        var h := s.requests[i].look.host;
        [LookOn(s, i, if s.fails[h] >= limits[h].maxFails then NoLook else Up(h))]
      else []
    case LookRoom(i, keep) =>
      if Looks(s, i) && s.requests[i].look.Up? && s.requests[i].look.host < |limits|
      then LookedRoom(limits, crowd, s, i, keep) else []
    case PassOver(i, done) =>
      if Looks(s, i) then [Move(s, i, if done then Done else Selecting(None, NoLook))] else []
    case Begin(i) =>
      if Looks(s, i) && s.requests[i].kept.Some? && s.requests[i].kept.value < |limits| then
        var h := s.requests[i].kept.value;
        [Move(s, i, Serving(h)).(conns := s.conns[h := s.conns[h] + 1])]
      else []
    case End(i, outcome) =>
      if i < |s.requests| && s.requests[i].Serving? && s.requests[i].host < |limits| then
        var h := s.requests[i].host;
        [Move(s, i, if outcome == Error then Failed(h) else Done).(conns := s.conns[h := s.conns[h] - 1])]
      else []
    case AfterError(i, retry) =>
      if i < |s.requests| && s.requests[i].Failed? && s.requests[i].host < |limits| then
        var h := s.requests[i].host;
        var t := Move(s, i, if retry then Selecting(None, NoLook) else Done);
        [if limits[h].remembers then t.(fails := s.fails[h := s.fails[h] + 1], timers := s.timers + multiset{h}) else t]
      else []
    case Expire(h) =>
      if h < |limits| && h in s.timers
      then [s.(fails := s.fails[h := s.fails[h] - 1], timers := s.timers - multiset{h})] else []
    case Check(h, healthy) =>
      if h < |limits| then [s.(unhealthy := s.unhealthy[h := !healthy])] else []
  }

  /** The state after some steps from the start; none when a step cannot be taken. */
  function Run(limits: seq<Limits>, crowd: nat, steps: seq<Step>): (r: seq<State>)
    ensures |r| <= 1 && forall i :: 0 <= i < |r| ==> WellFormed(limits, r[i])
  {
    if steps == [] then [Init(limits)]
    else
      var before := Run(limits, crowd, steps[..|steps| - 1]);
      if before == [] then [] else Next(limits, crowd, before[0], steps[|steps| - 1])
  }

  // ---------------------------------------------------------------------------------------------
  // What every reachable state keeps
  // ---------------------------------------------------------------------------------------------

  /** The counts are exact: connections are the attempts in flight, failures the timers still running. */
  ghost predicate Exact(limits: seq<Limits>, s: State, h: nat)
    requires WellFormed(limits, s) && h < |limits|
  {
    s.conns[h] == Count(s.requests, ServingOn(h)) && s.fails[h] == s.timers[h]
  }

  /** No more are connected or about to be than the limit allows, but for the crowd that saw the last room. */
  ghost predicate Bounded(limits: seq<Limits>, crowd: nat, s: State, h: nat)
    requires WellFormed(limits, s) && h < |limits|
  {
    limits[h].maxConns > 0 ==> s.conns[h] + Count(s.requests, PendingOn(h)) <= limits[h].maxConns - 1 + crowd
  }

  function One(b: bool): int { if b then 1 else 0 }

  lemma {:induction false} CountMove(requests: seq<Phase>, i: nat, p: Phase, role: Role)
    requires i < |requests|
    ensures Count(requests[i := p], role) == Count(requests, role) - One(Has(requests[i], role)) + One(Has(p, role))
  {
    hide Has;
    if i > 0 {
      CountMove(requests[1..], i - 1, p, role);
      assert requests[i := p][1..] == requests[1..][i - 1 := p];
    } else {
      assert requests[0 := p][1..] == requests[1..];
    }
  }

  lemma {:induction false} CountArrive(requests: seq<Phase>, p: Phase, role: Role)
    ensures Count(requests + [p], role) == Count(requests, role) + One(Has(p, role))
  {
    hide Has;
    if requests != [] {
      CountArrive(requests[1..], p, role);
      assert (requests + [p])[1..] == requests[1..] + [p];
    } else {
      assert [p][1..] == [] && requests + [p] == [p];
    }
  }

  /** The counts of a host's requests after the one at i has moved on. */
  lemma {:induction false} Moved(s: State, t: State, i: nat, role: Role)
    requires i < |s.requests| == |t.requests| && t.requests == s.requests[i := t.requests[i]]
    ensures Count(t.requests, role) ==
            Count(s.requests, role) - One(Has(s.requests[i], role)) + One(Has(t.requests[i], role))
  {
    CountMove(s.requests, i, t.requests[i], role);
  }

  ghost predicate Good(limits: seq<Limits>, crowd: nat, s: State, h: nat)
    requires WellFormed(limits, s) && h < |limits|
  {
    Exact(limits, s, h) && Bounded(limits, crowd, s, h)
  }

  /** A step, if it can be taken, keeps the counts of a host right. */
  ghost predicate Keeps(limits: seq<Limits>, crowd: nat, s: State, step: Step, h: nat)
    requires WellFormed(limits, s) && h < |limits|
  {
    Next(limits, crowd, s, step) != [] ==> Good(limits, crowd, Next(limits, crowd, s, step)[0], h)
  }

  lemma {:induction false} LookKeeps(limits: seq<Limits>, crowd: nat, s: State, step: Step, h: nat)
    requires WellFormed(limits, s) && h < |limits| && crowd >= 1 && Good(limits, crowd, s, h)
    requires step.LookHealth? || step.LookFails? || step.LookRoom? || step.PassOver?
    ensures Keeps(limits, crowd, s, step, h)
  {
    hide Count;
    if Next(limits, crowd, s, step) != [] {
      var t := Next(limits, crowd, s, step)[0];
      Moved(s, t, step.i, ServingOn(h));
      Moved(s, t, step.i, PendingOn(h));
    }
  }

  lemma {:induction false} BeginKeeps(limits: seq<Limits>, crowd: nat, s: State, step: Step, h: nat)
    requires WellFormed(limits, s) && h < |limits| && crowd >= 1 && Good(limits, crowd, s, h)
    requires step.Begin?
    ensures Keeps(limits, crowd, s, step, h)
  {
    hide Count;
    if Next(limits, crowd, s, step) != [] {
      var t := Next(limits, crowd, s, step)[0];
      Moved(s, t, step.i, ServingOn(h));
      Moved(s, t, step.i, PendingOn(h));
    }
  }

  lemma {:induction false} EndKeeps(limits: seq<Limits>, crowd: nat, s: State, step: Step, h: nat)
    requires WellFormed(limits, s) && h < |limits| && crowd >= 1 && Good(limits, crowd, s, h)
    requires step.End?
    ensures Keeps(limits, crowd, s, step, h)
  {
    hide Count;
    if Next(limits, crowd, s, step) != [] {
      var t := Next(limits, crowd, s, step)[0];
      Moved(s, t, step.i, ServingOn(h));
      Moved(s, t, step.i, PendingOn(h));
    }
  }

  lemma {:induction false} AfterErrorKeeps(limits: seq<Limits>, crowd: nat, s: State, step: Step, h: nat)
    requires WellFormed(limits, s) && h < |limits| && crowd >= 1 && Good(limits, crowd, s, h)
    requires step.AfterError?
    ensures Keeps(limits, crowd, s, step, h)
  {
    hide Count;
    if Next(limits, crowd, s, step) != [] {
      var t := Next(limits, crowd, s, step)[0];
      Moved(s, t, step.i, ServingOn(h));
      Moved(s, t, step.i, PendingOn(h));
    }
  }

  lemma {:induction false} OtherKeeps(limits: seq<Limits>, crowd: nat, s: State, step: Step, h: nat)
    requires WellFormed(limits, s) && h < |limits| && crowd >= 1 && Good(limits, crowd, s, h)
    requires step.Arrive? || step.Expire? || step.Check?
    ensures Keeps(limits, crowd, s, step, h)
  {
    hide Count;
    if Next(limits, crowd, s, step) != [] {
      CountArrive(s.requests, Selecting(None, NoLook), ServingOn(h));
      CountArrive(s.requests, Selecting(None, NoLook), PendingOn(h));
    }
  }

  lemma {:induction false} StepKeeps(limits: seq<Limits>, crowd: nat, s: State, step: Step, h: nat)
    requires WellFormed(limits, s) && h < |limits| && crowd >= 1 && Good(limits, crowd, s, h)
    ensures Keeps(limits, crowd, s, step, h)
  {
    hide Keeps, Good;
    if step.LookHealth? || step.LookFails? || step.LookRoom? || step.PassOver? {
      LookKeeps(limits, crowd, s, step, h);
    } else if step.Begin? {
      BeginKeeps(limits, crowd, s, step, h);
    } else if step.End? {
      EndKeeps(limits, crowd, s, step, h);
    } else if step.AfterError? {
      AfterErrorKeeps(limits, crowd, s, step, h);
    } else {
      OtherKeeps(limits, crowd, s, step, h);
    }
  }

  /**
   In every reachable state of concurrent requests each host's connections are the attempts in
   flight on it, its failures are its running timers, and connections and pending requests together
   stay within the limit but for the crowd.
   */
  lemma {:induction false} Accounting(limits: seq<Limits>, crowd: nat, steps: seq<Step>, h: nat)
    requires h < |limits| && crowd >= 1
    ensures Run(limits, crowd, steps) != [] ==>
              var s := Run(limits, crowd, steps)[0]; Exact(limits, s, h) && Bounded(limits, crowd, s, h)
  {
    hide Next, Exact, Bounded;
    if steps == [] {
      StartKeeps(limits, crowd, h);
    } else {
      var before := steps[..|steps| - 1];
      Accounting(limits, crowd, before, h);
      if Run(limits, crowd, before) != [] {
        StepKeeps(limits, crowd, Run(limits, crowd, before)[0], steps[|steps| - 1], h);
      }
    }
  }

  lemma {:induction false} StartKeeps(limits: seq<Limits>, crowd: nat, h: nat)
    requires h < |limits| && crowd >= 1
    ensures Exact(limits, Init(limits), h) && Bounded(limits, crowd, Init(limits), h)
  {
  }

  /** When every request is done and every timer has run out, nothing is counted any more. */
  lemma {:induction false} AllGivenBack(limits: seq<Limits>, crowd: nat, steps: seq<Step>, h: nat)
    requires h < |limits| && crowd >= 1 && Run(limits, crowd, steps) != []
    requires var s := Run(limits, crowd, steps)[0];
             s.timers == multiset{} && forall i :: 0 <= i < |s.requests| ==> s.requests[i] == Done
    ensures var s := Run(limits, crowd, steps)[0]; s.conns[h] == 0 && s.fails[h] == 0
  {
    hide Run;
    Accounting(limits, crowd, steps, h);
    NoneOf(Run(limits, crowd, steps)[0].requests, ServingOn(h));
  }

  lemma {:induction false} NoneOf(requests: seq<Phase>, role: Role)
    requires forall i :: 0 <= i < |requests| ==> !Has(requests[i], role)
    ensures Count(requests, role) == 0
  {
    if requests != [] {
      NoneOf(requests[1..], role);
    }
  }

  // ---------------------------------------------------------------------------------------------
  // The bound is reached
  // ---------------------------------------------------------------------------------------------

  function Many(p: Phase, n: nat): seq<Phase> {
    seq(n, _ => p)
  }

  /** A request that has seen room on the single host. */
  const Waiting: Phase := Selecting(Some(0), NoLook)

  /** On a single host: a requests served, then b pending. */
  function Shape(a: nat, b: nat): State {
    State([a], [0], [false], Many(Serving(0), a) + Many(Waiting, b), multiset{})
  }

  lemma {:induction false} CountShape(a: nat, b: nat)
    ensures Count(Many(Serving(0), a) + Many(Waiting, b), PendingOn(0)) == b
  {
    var all := Many(Serving(0), a) + Many(Waiting, b);
    if a > 0 {
      CountShape(a - 1, b);
      assert all[1..] == Many(Serving(0), a - 1) + Many(Waiting, b);
    } else if b > 0 {
      CountShape(0, b - 1);
      assert all[1..] == Many(Serving(0), 0) + Many(Waiting, b - 1);
    }
  }

  lemma {:induction false} RunOn(limits: seq<Limits>, crowd: nat, steps: seq<Step>, step: Step)
    ensures Run(limits, crowd, steps) == [] ==> Run(limits, crowd, steps + [step]) == []
    ensures Run(limits, crowd, steps) != [] ==>
              Run(limits, crowd, steps + [step]) == Next(limits, crowd, Run(limits, crowd, steps)[0], step)
  {
    assert (steps + [step])[..|steps|] == steps;
  }

  /** The single host's requests with one more, in a phase of its own. */
  function Joined(a: nat, b: nat, p: Phase): State {
    Shape(a, b).(requests := Shape(a, b).requests + [p])
  }

  /** A step that takes the last request from one phase to another. */
  lemma {:induction false} LastMoves(a: nat, b: nat, p: Phase, q: Phase)
    ensures Joined(a, b, p).requests[a + b] == p && |Joined(a, b, p).requests| == a + b + 1
    ensures Joined(a, b, p).requests[a + b := q] == Joined(a, b, q).requests
    ensures Joined(a, b, Waiting) == Shape(a, b + 1)
  {
    assert Many(Waiting, b) + [Waiting] == Many(Waiting, b + 1);
  }

  /** One more request arrives, finds the host up and finds room. */
  lemma {:induction false} OnePending(limits: seq<Limits>, crowd: nat, steps: seq<Step>, a: nat, b: nat)
    returns (more: seq<Step>)
    requires |limits| == 1 && limits[0].maxFails > 0 && a < limits[0].maxConns && b < crowd
    requires Run(limits, crowd, steps) == [Shape(a, b)]
    ensures Run(limits, crowd, more) == [Shape(a, b + 1)]
  {
    hide Run, Joined, Many;
    var i := a + b;
    var start, healthy, up := Selecting(None, NoLook), Selecting(None, Healthy(0)), Selecting(None, Up(0));
    LastMoves(a, b, start, healthy);
    LastMoves(a, b, healthy, up);
    LastMoves(a, b, up, Waiting);
    RunOn(limits, crowd, steps, Arrive);
    var s1 := steps + [Arrive];
    assert Run(limits, crowd, s1) == [Joined(a, b, start)] by {
      JoinedIs(a, b, start);
    }
    RunOn(limits, crowd, s1, LookHealth(i, 0));
    var s2 := s1 + [LookHealth(i, 0)];
    JoinedIs(a, b, start);
    JoinedIs(a, b, healthy);
    JoinedIs(a, b, up);
    assert Run(limits, crowd, s2) == [Joined(a, b, healthy)];
    RunOn(limits, crowd, s2, LookFails(i));
    var s3 := s2 + [LookFails(i)];
    assert Run(limits, crowd, s3) == [Joined(a, b, up)];
    RunOn(limits, crowd, s3, LookRoom(i, true));
    more := s3 + [LookRoom(i, true)];
    CountShape(a, b);
    CountArrive(Shape(a, b).requests, up, PendingOn(0));
    assert Joined(a, b, up).requests == Shape(a, b).requests + [up];
    JoinedIs(a, b, Waiting);
  }

  lemma {:induction false} JoinedIs(a: nat, b: nat, p: Phase)
    ensures Joined(a, b, p) == Shape(a, b).(requests := Shape(a, b).requests + [p])
    ensures var s := Joined(a, b, p);
            s.conns == [a] && s.fails == [0] && s.unhealthy == [false] && s.timers == multiset{}
  {
  }

  /** The first pending request begins. */
  lemma {:induction false} OneBegins(limits: seq<Limits>, crowd: nat, steps: seq<Step>, a: nat, b: nat)
    returns (more: seq<Step>)
    requires |limits| == 1 && b > 0
    requires Run(limits, crowd, steps) == [Shape(a, b)]
    ensures Run(limits, crowd, more) == [Shape(a + 1, b - 1)]
  {
    hide Run;
    more := steps + [Begin(a)];
    RunOn(limits, crowd, steps, Begin(a));
    var s := Shape(a, b);
    assert s.requests[a] == Waiting;
    assert s.requests[a := Serving(0)] == Shape(a + 1, b - 1).requests;
    assert s.conns[0 := s.conns[0] + 1] == [a + 1];
  }

  /** Requests that come one after the other fill the host up to any number below the limit. */
  lemma {:induction false} FillUp(limits: seq<Limits>, crowd: nat, a: nat) returns (steps: seq<Step>)
    requires |limits| == 1 && limits[0].maxFails > 0 && a < limits[0].maxConns && crowd >= 1
    ensures Run(limits, crowd, steps) == [Shape(a, 0)]
  {
    hide Run;
    if a == 0 {
      steps := [];
      assert Init(limits) == Shape(0, 0);
      RunNone(limits, crowd);
    } else {
      steps := FillUp(limits, crowd, a - 1);
      steps := OnePending(limits, crowd, steps, a - 1, 0);
      steps := OneBegins(limits, crowd, steps, a - 1, 1);
    }
  }

  lemma {:induction false} RunNone(limits: seq<Limits>, crowd: nat)
    ensures Run(limits, crowd, []) == [Init(limits)]
  {
  }

  lemma {:induction false} CrowdIn(limits: seq<Limits>, crowd: nat, a: nat, b: nat) returns (steps: seq<Step>)
    requires |limits| == 1 && limits[0].maxFails > 0 && a < limits[0].maxConns && b <= crowd && crowd >= 1
    ensures Run(limits, crowd, steps) == [Shape(a, b)]
  {
    hide Run;
    if b == 0 {
      steps := FillUp(limits, crowd, a);
    } else {
      steps := CrowdIn(limits, crowd, a, b - 1);
      steps := OnePending(limits, crowd, steps, a, b - 1);
    }
  }

  lemma {:induction false} CrowdBegins(limits: seq<Limits>, crowd: nat, steps: seq<Step>, a: nat, b: nat)
    returns (more: seq<Step>)
    requires |limits| == 1
    requires Run(limits, crowd, steps) == [Shape(a, b)]
    ensures Run(limits, crowd, more) == [Shape(a + b, 0)]
    decreases b
  {
    hide Run;
    if b == 0 {
      more := steps;
    } else {
      more := OneBegins(limits, crowd, steps, a, b);
      more := CrowdBegins(limits, crowd, more, a + 1, b - 1);
    }
  }

  /** For every limit and every crowd, some run connects as many as the bound allows. */
  lemma {:induction false} BoundIsReached(limits: seq<Limits>, crowd: nat) returns (steps: seq<Step>)
    requires |limits| == 1 && limits[0].maxFails > 0 && limits[0].maxConns > 0 && crowd >= 1
    ensures Run(limits, crowd, steps) != []
    ensures Run(limits, crowd, steps)[0].conns[0] == limits[0].maxConns - 1 + crowd
  {
    hide Run;
    steps := CrowdIn(limits, crowd, limits[0].maxConns - 1, crowd);
    steps := CrowdBegins(limits, crowd, steps, limits[0].maxConns - 1, crowd);
  }
}
