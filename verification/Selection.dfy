/**
 Selection of an upstream host (caddyhttp/proxy/upstream.go, staticUpstream.Select): the shortcuts
 before the policy, and the policies that can miss an available host.
 */
module Selection {
  import opened Numbers
  import Probing
  import Reservoir
  import opened RoundRobin
  import opened Upstream
  import opened Wrappers

  /**
   A policy with what it depends on: its random numbers, its counter, or the hash of what the
   request is told by. The header policy has a name, the hash of the header's value if there is one,
   and a counter to fall back on.
   */
  datatype Policy =
    | Random(rand: nat -> nat)
    | LeastConn(rand: nat -> nat)
    | First
    | Turns(counter: RoundRobin)
    | Hashing(hash: nat)
    | Header(named: bool, value: Option<nat>, counter: RoundRobin)
  {
    predicate HasCounter() { Turns? || Header? }

    /** Numbers fit 32 bits. */
    ghost predicate Sound()
      reads if HasCounter() then {counter} else {}
    {
      && (HasCounter() ==> counter.robin < Word)
      && (Hashing? ==> hash < Word)
      && (Header? && value.Some? ==> value.value < Word)
    }

    /** The value of the counter, if there is one. */
    ghost function Robin(): nat
      reads if HasCounter() then {counter} else {}
    {
      if HasCounter() then counter.robin else 0
    }
  }

  /** Whether the policy may miss an available host of n. */
  ghost predicate MayMiss(n: nat, policy: Policy, robin: nat)
    requires n > 0
  {
    match policy
    case Turns(_) => !Safe(n, robin)
    case Hashing(_) => !PowerOfTwo(n)
    case Header(named, value, _) => !named || if value.Some? then !PowerOfTwo(n) else !Safe(n, robin)
    case _ => false
  }

  /** The first available host in the order of the probes from a hash; none if no probe meets one. */
  ghost predicate FirstProbed(pool: seq<Host>, hash: nat, choice: Option<nat>)
    requires |pool| > 0 && Chosen(pool, choice)
  {
    && (choice == None <==> !Meets(pool, Probing.Slots(|pool|, hash)))
    && (choice.Some? ==>
          exists i :: 0 <= i < |pool| && choice.value == Probing.Slots(|pool|, hash)[i] &&
                      forall j :: 0 <= j < i ==> !pool[Probing.Slots(|pool|, hash)[j]].Available())
  }

  /** The choice is the policy's: by lot, least loaded, first, next in turn, or first met from the hash. */
  ghost predicate Obeys(pool: seq<Host>, policy: Policy, robin: nat, choice: Option<nat>)
    requires |pool| > 0 && Chosen(pool, choice)
  {
    match policy
    case Random(rand) => choice == Reservoir.Choice(pool, None, rand, |pool|)
    case LeastConn(rand) =>
      choice.Some? ==>
        && Reservoir.Least(pool, choice.value)
        && choice == Reservoir.Choice(pool, Some(pool[choice.value].conns), rand, |pool|)
    case First => choice.Some? ==> forall k :: 0 <= k < choice.value ==> !pool[k].Available()
    case Turns(_) => choice == Pick(pool, robin, |pool|).0
    case Hashing(hash) => FirstProbed(pool, hash, choice)
    case Header(named, value, _) =>
      if !named then choice == None
      else if value.Some? then FirstProbed(pool, value.value, choice)
      else choice == Pick(pool, robin, |pool|).0
  }

  /**
   Selects a host for a request; without a policy, at random. It never panics. What it selects is
   available and is the policy's choice; it selects none only if none is available or the policy may
   miss one, and then never out of one host.
   */
  method Select(pool: seq<Host>, policy: Option<Policy>, rand: nat -> nat) returns (choice: Option<nat>)
    requires |pool| < Word && forall k :: 0 <= k < |pool| ==> pool[k].conns <= MaxInt64
    requires policy.Some? ==> policy.value.Sound()
    modifies if policy.Some? && policy.value.HasCounter() then {policy.value.counter} else {}
    ensures Chosen(pool, choice)
    ensures choice == None && AnyAvailable(pool) ==>
              |pool| > 1 && policy.Some? && MayMiss(|pool|, policy.value, old(policy.value.Robin()))
    ensures |pool| > 1 && AnyAvailable(pool) && policy.Some? ==>
              Obeys(pool, policy.value, old(policy.value.Robin()), choice)
    ensures !AnyAvailable(pool) && policy.Some? && policy.value.HasCounter() ==> unchanged(policy.value.counter)
  {
    hide Host.Available, PowerOfTwo, Safe, Pick, Meets, Obeys, MayMiss;
    if |pool| == 1 {
      if !pool[0].Available() {
        return None;
      }
      return Some(0);
    }
    var allUnavailable := true;
    for i := 0 to |pool|
      invariant allUnavailable && forall k :: 0 <= k < i ==> !pool[k].Available()
    {
      if pool[i].Available() {
        allUnavailable := false;
        break;
      }
    }
    if allUnavailable {
      return None;
    }
    if policy.None? {
      choice := Reservoir.RandomSelect(pool, rand);
      return;
    }
    choice := ByPolicy(pool, policy.value);
  }

  method ByPolicy(pool: seq<Host>, policy: Policy) returns (choice: Option<nat>)
    requires 0 < |pool| < Word && AnyAvailable(pool) && policy.Sound()
    requires forall k :: 0 <= k < |pool| ==> pool[k].conns <= MaxInt64
    modifies if policy.HasCounter() then {policy.counter} else {}
    ensures Chosen(pool, choice)
    ensures choice == None ==> MayMiss(|pool|, policy, old(policy.Robin()))
    ensures Obeys(pool, policy, old(policy.Robin()), choice)
  {
    hide Host.Available, PowerOfTwo, Safe, Pick, Meets, AnyAvailable, FirstProbed;
    match policy
    case Random(rand) =>
      choice := Reservoir.RandomSelect(pool, rand);
    case LeastConn(rand) =>
      choice := Reservoir.LeastConnSelect(pool, rand);
    case First =>
      choice := FirstSelect(pool);
    case Turns(counter) =>
      choice := InTurn(pool, counter);
    case Hashing(hash) =>
      choice := ByHash(pool, hash);
    case Header(named, value, counter) =>
      if !named {
        return None;
      }
      if value.None? {
        choice := InTurn(pool, counter);
      } else {
        choice := ByHash(pool, value.value);
      }
  }

  method InTurn(pool: seq<Host>, counter: RoundRobin) returns (choice: Option<nat>)
    requires 0 < |pool| < Word && AnyAvailable(pool) && counter.robin < Word
    modifies counter
    ensures Chosen(pool, choice) && choice == Pick(pool, old(counter.robin), |pool|).0
    ensures choice == None ==> !Safe(|pool|, old(counter.robin))
  {
    hide Host.Available, Safe, Pick, AnyAvailable;
    NeverFailsIffSafe(|pool|, counter.robin);
    choice := counter.Select(pool);
  }

  method ByHash(pool: seq<Host>, hash: nat) returns (choice: Option<nat>)
    requires 0 < |pool| < Word && AnyAvailable(pool) && hash < Word
    ensures Chosen(pool, choice) && FirstProbed(pool, hash, choice)
    ensures choice == None ==> !PowerOfTwo(|pool|)
  {
    hide Host.Available, PowerOfTwo, Meets, AnyAvailable;
    Probing.AlwaysFindsIffPowerOfTwo(|pool|);
    var _, found := Probing.HostByHashing(pool, hash);
    assert Probing.AlwaysFinds(|pool|) ==> AlwaysMeets(|pool|, Probing.Slots(|pool|, hash));
    choice := found;
  }
}
