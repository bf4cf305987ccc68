/**
 Upstream hosts of a proxy, what makes one available (caddyhttp/proxy/proxy.go,
 caddyhttp/proxy/upstream.go) and the policies that scan the whole pool (caddyhttp/proxy/policy.go).
 A pool is read while nothing else changes it.
 */
module Upstream {
  import opened Numbers
  import opened Wrappers

  /** The largest signed 64-bit integer. */
  const MaxInt64: int := 0x7fff_ffff_ffff_ffff

  /** A host; maxFails is missing when the default check applies. */
  datatype Host = Host(conns: int, maxConns: int, unhealthy: int, fails: int, maxFails: Option<int>) {

    predicate Down() {
      unhealthy != 0 || if maxFails.Some? then fails >= maxFails.value else fails > 0
    }

    predicate Full() {
      maxConns > 0 && conns >= maxConns
    }

    predicate Available() {
      !Down() && !Full()
    }
  }

  /** Without a limit of its own, a host is held to one failure. */
  lemma {:induction false} DefaultIsOneFailure(host: Host)
    requires host.maxFails == None
    ensures host.Available() <==> host.(maxFails := Some(1)).Available()
  {
  }

  ghost predicate AnyAvailable(pool: seq<Host>) {
    exists k :: 0 <= k < |pool| && pool[k].Available()
  }

  /** A choice of host by its position: an available one of the pool. */
  ghost predicate Chosen(pool: seq<Host>, k: Option<nat>) {
    k.Some? ==> k.value < |pool| && pool[k.value].Available()
  }

  /** A choice that is missing only when no host is available. */
  ghost predicate FullChoice(pool: seq<Host>, k: Option<nat>) {
    Chosen(pool, k) && (k == None <==> !AnyAvailable(pool))
  }

  // ---------------------------------------------------------------------------------------------
  // The simplest policy
  // ---------------------------------------------------------------------------------------------

  method FirstSelect(pool: seq<Host>) returns (choice: Option<nat>)
    ensures FullChoice(pool, choice)
    ensures choice.Some? ==> forall k :: 0 <= k < choice.value ==> !pool[k].Available()
  {
    for i := 0 to |pool|
      invariant forall k :: 0 <= k < i ==> !pool[k].Available()
    {
      if pool[i].Available() {
        return Some(i);
      }
    }
    return None;
  }

  // ---------------------------------------------------------------------------------------------
  // Policies that look at the pool host by host, in some order
  // ---------------------------------------------------------------------------------------------

  ghost predicate InPool(n: nat, order: seq<nat>) {
    |order| == n && forall i :: 0 <= i < |order| ==> order[i] < n
  }

  /** Looking at the hosts in an order meets an available one. */
  ghost predicate Meets(pool: seq<Host>, order: seq<nat>)
    requires InPool(|pool|, order)
  {
    exists i :: 0 <= i < |order| && pool[order[i]].Available()
  }

  /** The pool in which a single host is available. */
  function OnlyOne(n: nat, k: nat): (r: seq<Host>)
    ensures |r| == n && forall i :: 0 <= i < n ==> (r[i].Available() <==> i == k)
  {
    seq(n, i requires 0 <= i < n => Host(0, 0, if i == k then 0 else 1, 0, None))
  }

  /** An order meets an available host of every pool that has one. */
  ghost predicate AlwaysMeets(n: nat, order: seq<nat>)
    requires InPool(n, order)
  {
    forall pool: seq<Host> :: |pool| == n && AnyAvailable(pool) ==> Meets(pool, order)
  }

  /** As many looks as there are hosts meet whatever is available exactly when no host is looked at twice. */
  lemma {:induction false} AlwaysMeetsIffDistinct(n: nat, order: seq<nat>)
    requires InPool(n, order)
    ensures AlwaysMeets(n, order) <==> Distinct(order)
  {
    hide Host.Available;
    assert forall v :: v in order ==> v < n;
    Pigeonhole(order, n);
    if Distinct(order) {
      forall pool: seq<Host> | |pool| == n && AnyAvailable(pool)
        ensures Meets(pool, order)
      {
        var k: nat :| k < n && pool[k].Available();
        assert k in order;
      }
    } else {
      var k: nat :| k < n && k !in order;
      var pool := OnlyOne(n, k);
      assert pool[k].Available();
      assert forall i :: 0 <= i < n ==> order[i] in order;
      assert !Meets(pool, order);
    }
  }
}
