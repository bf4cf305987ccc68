/**
 Random selection (caddyhttp/proxy/policy.go, Random and LeastConn): one pass over the pool with a
 draw for every host that is in the running. Of all the draws there can be, each of those hosts is
 chosen by equally many.
 */
module Reservoir {
  import opened Sequences
  import opened Upstream
  import opened Wrappers

  /** In the running: the host is available and, if a number of connections is given, has that many. */
  predicate Wanted(h: Host, least: Option<int>) {
    h.Available() && (least.Some? ==> h.conns == least.value)
  }

  /** The positions of the wanted hosts among the first i. */
  function Candidates(pool: seq<Host>, least: Option<int>, i: nat): (r: seq<nat>)
    requires i <= |pool|
    ensures forall k :: 0 <= k < |r| ==> r[k] < i && Wanted(pool[r[k]], least)
  {
    if i == 0 then []
    else Candidates(pool, least, i - 1) + if Wanted(pool[i - 1], least) then [i - 1] else []
  }

  /** What is drawn for each of them: the j-th draw is below j + 1. */
  function Draws(pool: seq<Host>, least: Option<int>, rand: nat -> nat, i: nat): (r: seq<nat>)
    requires i <= |pool|
    ensures |r| == |Candidates(pool, least, i)| && Possible(r)
  {
    if i == 0 then []
    else
      var before := Draws(pool, least, rand, i - 1);
      before + if Wanted(pool[i - 1], least) then [Draw(rand, i - 1, |before|)] else []
  }

  /** The draw for a host after n others. */
  function Draw(rand: nat -> nat, i: nat, n: nat): (r: nat)
    ensures r <= n && r == rand(i) % (n + 1)
  {
    rand(i) % (n + 1)
  }

  predicate Possible(draws: seq<nat>) {
    forall j :: 0 <= j < |draws| ==> draws[j] <= j
  }

  /** The last draw of zero decides. */
  function Kept(draws: seq<nat>): (r: nat)
    requires draws != []
    ensures r < |draws| && (Possible(draws) ==> draws[r] == 0)
  {
    var n := |draws| - 1;
    if n == 0 || draws[n] == 0 then n else Kept(draws[..n])
  }

  /** The choice among the wanted hosts of the first i: the one whose draw was the last zero. */
  function Choice(pool: seq<Host>, least: Option<int>, rand: nat -> nat, i: nat): (r: Option<nat>)
    requires i <= |pool|
    ensures r.Some? ==> r.value < i && Wanted(pool[r.value], least)
    ensures r.None? <==> Candidates(pool, least, i) == []
  {
    var candidates := Candidates(pool, least, i);
    if candidates == [] then None else Some(candidates[Kept(Draws(pool, least, rand, i))])
  }

  method RandomSelect(pool: seq<Host>, rand: nat -> nat) returns (choice: Option<nat>)
    ensures FullChoice(pool, choice)
    ensures choice == Choice(pool, None, rand, |pool|)
  {
    hide Host.Available, Candidates, Choice;
    choice := None;
    var count := 0;
    ChooseNone(pool, None, rand, 0);
    for i := 0 to |pool|
      invariant count == |Candidates(pool, None, i)| && choice == Choice(pool, None, rand, i)
      invariant count == 0 ==> forall k :: 0 <= k < i ==> !pool[k].Available()
    {
      ChooseNext(pool, None, rand, i);
      if !pool[i].Available() {
        continue;
      }
      count := count + 1;
      if rand(i) % count == 0 {
        choice := Some(i);
      }
    }
  }

  /** No available host has fewer connections than the chosen one. */
  ghost predicate Least(pool: seq<Host>, k: nat) {
    k < |pool| && forall j :: 0 <= j < |pool| && pool[j].Available() ==> pool[k].conns <= pool[j].conns
  }

  method LeastConnSelect(pool: seq<Host>, rand: nat -> nat) returns (choice: Option<nat>)
    requires forall k :: 0 <= k < |pool| ==> pool[k].conns <= MaxInt64
    ensures FullChoice(pool, choice)
    ensures choice.Some? ==>
              Least(pool, choice.value) && choice == Choice(pool, Some(pool[choice.value].conns), rand, |pool|)
  {
    hide Host.Available, Candidates, Choice;
    choice := None;
    var count := 0;
    var leastConn := MaxInt64;
    ChooseNone(pool, Some(leastConn), rand, 0);
    for i := 0 to |pool|
      invariant count == |Candidates(pool, Some(leastConn), i)| && choice == Choice(pool, Some(leastConn), rand, i)
      invariant forall k :: 0 <= k < i && pool[k].Available() ==> leastConn <= pool[k].conns
      invariant count == 0 ==> leastConn == MaxInt64 && forall k :: 0 <= k < i ==> !pool[k].Available()
    {
      if !pool[i].Available() {
        ChooseNext(pool, Some(leastConn), rand, i);
        continue;
      }
      if pool[i].conns < leastConn {
        leastConn := pool[i].conns;
        count := 0;
        ChooseNone(pool, Some(leastConn), rand, i);
      }
      ChooseNext(pool, Some(leastConn), rand, i);
      if pool[i].conns == leastConn {
        count := count + 1;
        if rand(i) % count == 0 {
          choice := Some(i);
        }
      }
    }
  }

  /** Nobody is chosen while no host is wanted. */
  lemma {:induction false} ChooseNone(pool: seq<Host>, least: Option<int>, rand: nat -> nat, i: nat)
    requires i <= |pool| && forall k :: 0 <= k < i ==> !Wanted(pool[k], least)
    ensures Candidates(pool, least, i) == [] && Choice(pool, least, rand, i) == None
  {
    hide Wanted;
    if i > 0 {
      ChooseNone(pool, least, rand, i - 1);
    }
  }

  /** One more host: if it is wanted it is chosen on a draw of zero, and else the choice stands. */
  lemma {:induction false} ChooseNext(pool: seq<Host>, least: Option<int>, rand: nat -> nat, i: nat)
    requires i < |pool|
    ensures var before, after := Candidates(pool, least, i), Candidates(pool, least, i + 1);
            if Wanted(pool[i], least) then
              && |after| == |before| + 1
              && Choice(pool, least, rand, i + 1) ==
                 if rand(i) % |after| == 0 then Some(i) else Choice(pool, least, rand, i)
            else after == before && Choice(pool, least, rand, i + 1) == Choice(pool, least, rand, i)
  {
    hide Wanted, Kept, Possible, Candidates, Draws, Draw;
    var before, draws := Candidates(pool, least, i), Draws(pool, least, rand, i);
    OneMore(pool, least, rand, i);
    if Wanted(pool[i], least) {
      KeptNext(draws, Draw(rand, i, |draws|), before, i);
    }
  }

  lemma {:induction false} OneMore(pool: seq<Host>, least: Option<int>, rand: nat -> nat, i: nat)
    requires i < |pool|
    ensures var candidates, draws := Candidates(pool, least, i), Draws(pool, least, rand, i);
            if Wanted(pool[i], least) then
              && Candidates(pool, least, i + 1) == candidates + [i]
              && Draws(pool, least, rand, i + 1) == draws + [Draw(rand, i, |draws|)]
            else Candidates(pool, least, i + 1) == candidates && Draws(pool, least, rand, i + 1) == draws
  {
    hide Wanted, Draw, Possible;
  }

  lemma {:induction false} KeptNext(draws: seq<nat>, draw: nat, before: seq<nat>, i: nat)
    requires |draws| == |before| && (draw == 0 || draws != [])
    ensures (before + [i])[Kept(draws + [draw])] == if draw == 0 then i else before[Kept(draws)]
  {
    KeptThen(draws, draw);
    LastOfSnoc(before, i);
  }

  // ---------------------------------------------------------------------------------------------
  // All the draws there can be
  // ---------------------------------------------------------------------------------------------

  function Factorial(n: nat): nat {
    if n == 0 then 1 else n * Factorial(n - 1)
  }

  /** Each of some draws, followed by v. */
  function Then(ds: seq<seq<nat>>, v: nat): (r: seq<seq<nat>>)
    ensures |r| == |ds| && forall i :: 0 <= i < |ds| ==> r[i] == ds[i] + [v]
  {
    seq(|ds|, i requires 0 <= i < |ds| => ds[i] + [v])
  }

  /** Each of some draws, followed by every number below m. */
  function ThenAny(ds: seq<seq<nat>>, m: nat): seq<seq<nat>> {
    if m == 0 then [] else ThenAny(ds, m - 1) + Then(ds, m - 1)
  }

  /** All possible draws for n hosts. */
  function AllDraws(n: nat): seq<seq<nat>> {
    if n == 0 then [[]] else ThenAny(AllDraws(n - 1), n)
  }

  lemma {:induction false} ThenAnyHas(ds: seq<seq<nat>>, m: nat, d: seq<nat>)
    ensures d in ThenAny(ds, m) <==> d != [] && d[|d| - 1] < m && d[..|d| - 1] in ds
  {
    if m > 0 {
      ThenAnyHas(ds, m - 1, d);
      var longer := Then(ds, m - 1);
      if d != [] && d[|d| - 1] == m - 1 && d[..|d| - 1] in ds {
        var i :| 0 <= i < |ds| && ds[i] == d[..|d| - 1];
        assert d == ds[i] + [m - 1] == longer[i];
      }
      if d in longer {
        var i :| 0 <= i < |longer| && longer[i] == d;
        assert d[..|d| - 1] == ds[i];
      }
    }
  }

  /** They are all there. */
  lemma {:induction false} AllDrawsHas(n: nat, d: seq<nat>)
    ensures d in AllDraws(n) <==> |d| == n && Possible(d)
  {
    if n > 0 {
      ThenAnyHas(AllDraws(n - 1), n, d);
      if d != [] {
        var before := d[..|d| - 1];
        AllDrawsHas(n - 1, before);
        assert d == before + [d[|d| - 1]];
        assert Possible(d) <==> Possible(before) && d[|d| - 1] <= |before|;
      }
    }
  }

  ghost predicate NoneTwice(ds: seq<seq<nat>>) {
    forall i, k :: 0 <= i < k < |ds| ==> ds[i] != ds[k]
  }

  lemma {:induction false} ThenAnyOnce(ds: seq<seq<nat>>, m: nat)
    requires NoneTwice(ds)
    ensures NoneTwice(ThenAny(ds, m))
  {
    if m > 0 {
      var before, last := ThenAny(ds, m - 1), Then(ds, m - 1);
      ThenAnyOnce(ds, m - 1);
      forall i, k | 0 <= i < k < |ds|
        ensures last[i] != last[k]
      {
        assert last[i][..|ds[i]|] == ds[i] && last[k][..|ds[k]|] == ds[k];
      }
      forall i, k | 0 <= i < |before| && 0 <= k < |last|
        ensures before[i] != last[k]
      {
        ThenAnyHas(ds, m - 1, before[i]);
      }
    }
  }

  /** And none is there twice. */
  lemma {:induction false} AllDrawsOnce(n: nat)
    ensures NoneTwice(AllDraws(n))
  {
    if n > 0 {
      AllDrawsOnce(n - 1);
      ThenAnyOnce(AllDraws(n - 1), n);
    }
  }

  /** How many of some draws keep the j-th host. */
  function Keeping(ds: seq<seq<nat>>, j: nat): nat {
    if ds == [] then 0
    else Keeping(ds[..|ds| - 1], j) + if ds[|ds| - 1] != [] && Kept(ds[|ds| - 1]) == j then 1 else 0
  }

  lemma {:induction false} KeepingAdds(a: seq<seq<nat>>, b: seq<seq<nat>>, j: nat)
    ensures Keeping(a + b, j) == Keeping(a, j) + Keeping(b, j)
  {
    hide Kept;
    if b == [] {
      assert a + b == a;
    } else {
      KeepingAdds(a, b[..|b| - 1], j);
      LastOfConcat(a, b);
    }
  }

  ghost predicate AllOfLength(ds: seq<seq<nat>>, n: nat) {
    forall i :: 0 <= i < |ds| ==> |ds[i]| == n
  }

  lemma {:induction false} KeptThen(d: seq<nat>, v: nat)
    requires v == 0 || d != []
    ensures Kept(d + [v]) == if v == 0 then |d| else Kept(d)
  {
    LastOfSnoc(d, v);
  }

  /** A last draw of zero keeps the last host; any other leaves the choice as it was. */
  lemma {:induction false} KeepingThen(ds: seq<seq<nat>>, n: nat, v: nat, j: nat)
    requires AllOfLength(ds, n) && (v == 0 || n > 0)
    ensures Keeping(Then(ds, v), j) == if v != 0 then Keeping(ds, j) else if j == n then |ds| else 0
  {
    hide Kept;
    if ds != [] {
      var last, before := ds[|ds| - 1], ds[..|ds| - 1];
      KeepingThen(before, n, v, j);
      assert Then(ds, v)[..|ds| - 1] == Then(before, v);
      KeptThen(last, v);
    }
  }

  lemma {:induction false} KeepingThenAny(ds: seq<seq<nat>>, n: nat, m: nat, j: nat)
    requires AllOfLength(ds, n) && 1 <= m && (m == 1 || n > 0)
    ensures Keeping(ThenAny(ds, m), j) == (if j == n then |ds| else 0) + (m - 1) * Keeping(ds, j)
    ensures |ThenAny(ds, m)| == m * |ds|
    decreases m
  {
    hide Keeping;
    KeepingThen(ds, n, m - 1, j);
    KeepingAdds(ThenAny(ds, m - 1), Then(ds, m - 1), j);
    if m == 1 {
      KeepingNone(j);
    } else {
      KeepingThenAny(ds, n, m - 1, j);
      assert (m - 1) * Keeping(ds, j) == (m - 2) * Keeping(ds, j) + Keeping(ds, j);
      assert m * |ds| == (m - 1) * |ds| + |ds|;
    }
  }

  lemma {:induction false} KeepingNone(j: nat)
    ensures Keeping([], j) == 0
  {
  }

  lemma {:induction false} KeepingBelow(ds: seq<seq<nat>>, n: nat)
    requires AllOfLength(ds, n)
    ensures Keeping(ds, n) == 0
  {
    if ds != [] {
      KeepingBelow(ds[..|ds| - 1], n);
    }
  }

  lemma {:induction false} AllDrawsLength(n: nat)
    ensures AllOfLength(AllDraws(n), n)
  {
    forall i | 0 <= i < |AllDraws(n)|
      ensures |AllDraws(n)[i]| == n
    {
      AllDrawsHas(n, AllDraws(n)[i]);
    }
  }

  /** Of the n! possible draws for n available hosts, each host is kept by (n - 1)!. */
  lemma {:induction false} EquallyLikely(n: nat, j: nat)
    requires j < n
    ensures |AllDraws(n)| == Factorial(n) && Keeping(AllDraws(n), j) == Factorial(n - 1)
  {
    hide Keeping, ThenAny;
    var before := AllDraws(n - 1);
    AllDrawsLength(n - 1);
    KeepingThenAny(before, n - 1, n, j);
    AllDrawsCount(n - 1);
    if j < n - 1 {
      EquallyLikely(n - 1, j);
    } else {
      KeepingBelow(before, n - 1);
    }
  }

  lemma {:induction false} AllDrawsCount(n: nat)
    ensures |AllDraws(n)| == Factorial(n)
  {
    hide Keeping, ThenAny;
    if n > 0 {
      AllDrawsCount(n - 1);
      AllDrawsLength(n - 1);
      KeepingThenAny(AllDraws(n - 1), n - 1, n, 0);
    }
  }
}
