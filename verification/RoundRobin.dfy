/**
 Selection in turn (caddyhttp/proxy/policy.go, RoundRobin): a 32-bit counter that moves on to the
 next available host. When a selection can fail although a host is available, and how often each
 host is selected.
 */
module RoundRobin {
  import opened Numbers
  import opened Upstream
  import opened Wrappers

  /** What a selection picks with some tries left, and the counter after it. */
  function Pick(pool: seq<Host>, robin: nat, tries: nat): (r: (Option<nat>, nat))
    ensures Chosen(pool, r.0)
    decreases tries
  {
    if tries == 0 || pool == [] then (None, robin)
    else
      var next := (robin + 1) % Word;
      if pool[next % |pool|].Available() then (Some(next % |pool|), next) else Pick(pool, next, tries - 1)
  }

  class RoundRobin {
    /** An unsigned 32-bit integer. */
    var robin: nat

    constructor ()
      ensures robin == 0
    {
      robin := 0;
    }

    method Select(pool: seq<Host>) returns (choice: Option<nat>)
      requires |pool| < Word
      modifies this
      ensures Chosen(pool, choice)
      ensures (choice, robin) == Pick(pool, old(robin), |pool|)
    {
      hide Host.Available;
      var poolLen := |pool|;
      for i := 0 to poolLen
        invariant Pick(pool, old(robin), poolLen) == Pick(pool, robin, poolLen - i)
      {
        robin := (robin + 1) % Word;
        var host := robin % poolLen;
        if pool[host].Available() {
          return Some(host);
        }
      }
      return None;
    }
  }

  // ---------------------------------------------------------------------------------------------
  // When a selection finds what is available
  // ---------------------------------------------------------------------------------------------

  /** The hosts a selection looks at, in order. */
  function Looks(n: nat, robin: nat): (r: seq<nat>)
    requires n > 0
    ensures InPool(n, r)
  {
    seq(n, i requires 0 <= i < n => Look(n, robin, i + 1))
  }

  function Look(n: nat, robin: nat, i: nat): (r: nat)
    requires n > 0
    ensures r < n
  {
    ((robin + i) % Word) % n
  }

  lemma {:induction false} LookNext(n: nat, robin: nat, i: nat)
    requires n > 0
    ensures Look(n, (robin + 1) % Word, i) == Look(n, robin, i + 1)
  {
    var x := robin + 1;
    assert x + i == x % Word + i + Word * (x / Word);
    ModShift(x % Word + i, Word, x / Word);
  }

  /** A selection picks the first available host it looks at. */
  lemma {:induction false} PickIsFirst(pool: seq<Host>, robin: nat, tries: nat)
    requires |pool| > 0
    ensures match Pick(pool, robin, tries).0
            case None => forall i :: 1 <= i <= tries ==> !pool[Look(|pool|, robin, i)].Available()
            case Some(k) => exists i :: 1 <= i <= tries && k == Look(|pool|, robin, i) &&
                                        forall j :: 1 <= j < i ==> !pool[Look(|pool|, robin, j)].Available()
    decreases tries
  {
    hide Look, Host.Available;
    if tries > 0 {
      var n, next := |pool|, (robin + 1) % Word;
      assert next % n == Look(n, robin, 1) by {
        LookOne(n, robin);
      }
      forall i | 1 <= i <= tries
        ensures Look(n, next, i) == Look(n, robin, i + 1)
      {
        LookNext(n, robin, i);
      }
      if !pool[next % n].Available() {
        PickIsFirst(pool, next, tries - 1);
        LaterLooks(pool, robin, next, tries);
      }
    }
  }

  lemma {:induction false} LookOne(n: nat, robin: nat)
    requires n > 0
    ensures Look(n, robin, 1) == (robin + 1) % Word % n
  {
  }

  lemma {:induction false} LaterLooks(pool: seq<Host>, robin: nat, next: nat, tries: nat)
    requires |pool| > 0 && tries > 0 && next == (robin + 1) % Word
    requires forall i :: 1 <= i <= tries ==> Look(|pool|, next, i) == Look(|pool|, robin, i + 1)
    requires !pool[Look(|pool|, robin, 1)].Available()
    requires match Pick(pool, next, tries - 1).0
             case None => forall i :: 1 <= i <= tries - 1 ==> !pool[Look(|pool|, next, i)].Available()
             case Some(k) => exists i :: 1 <= i <= tries - 1 && k == Look(|pool|, next, i) &&
                                         forall j :: 1 <= j < i ==> !pool[Look(|pool|, next, j)].Available()
    ensures match Pick(pool, next, tries - 1).0
            case None => forall i :: 1 <= i <= tries ==> !pool[Look(|pool|, robin, i)].Available()
            case Some(k) => exists i :: 1 <= i <= tries && k == Look(|pool|, robin, i) &&
                                        forall j :: 1 <= j < i ==> !pool[Look(|pool|, robin, j)].Available()
  {
    hide Look, Pick, Host.Available;
    var n := |pool|;
    match Pick(pool, next, tries - 1).0
    case None =>
      forall i | 1 <= i <= tries
        ensures !pool[Look(n, robin, i)].Available()
      {
        if i > 1 {
          assert Look(n, next, i - 1) == Look(n, robin, i);
        }
      }
    case Some(k) =>
      var i :| 1 <= i <= tries - 1 && k == Look(n, next, i) &&
               forall j :: 1 <= j < i ==> !pool[Look(n, next, j)].Available();
      assert k == Look(n, robin, i + 1);
      forall j | 1 <= j < i + 1
        ensures !pool[Look(n, robin, j)].Available()
      {
        if j > 1 {
          assert Look(n, next, j - 1) == Look(n, robin, j);
        }
      }
  }

  lemma {:induction false} PickMeets(pool: seq<Host>, robin: nat)
    requires |pool| > 0
    ensures Pick(pool, robin, |pool|).0 == None <==> !Meets(pool, Looks(|pool|, robin))
  {
    hide Look, Pick, Host.Available;
    var n := |pool|;
    PickIsFirst(pool, robin, n);
    assert forall i :: 0 <= i < n ==> Looks(n, robin)[i] == Look(n, robin, i + 1);
    match Pick(pool, robin, n).0
    case None =>
    case Some(k) =>
      var i :| 1 <= i <= n && k == Look(n, robin, i);
      assert Looks(n, robin)[i - 1] == k;
  }

  /** From this value of the counter a selection fails in no pool of n hosts of which one is available. */
  ghost predicate NeverFails(n: nat, robin: nat)
    requires n > 0
  {
    forall pool: seq<Host> :: |pool| == n && AnyAvailable(pool) ==> Pick(pool, robin, n).0.Some?
  }

  /** The counter does not wrap during the selection, or is about to wrap, or wraps without a jump. */
  predicate Safe(n: nat, robin: nat)
    requires n > 0
  {
    robin + n < Word || robin == Word - 1 || Word % n == 0
  }

  /** A selection fails in no pool exactly from a safe value of the counter. */
  lemma {:induction false} NeverFailsIffSafe(n: nat, robin: nat)
    requires 0 < n < Word && robin < Word
    ensures NeverFails(n, robin) <==> Safe(n, robin)
  {
    hide Look, Pick, Safe, Meets, AnyAvailable;
    AlwaysMeetsIffDistinct(n, Looks(n, robin));
    forall pool: seq<Host> | |pool| == n
      ensures Pick(pool, robin, n).0.Some? <==> Meets(pool, Looks(n, robin))
    {
      PickMeets(pool, robin);
    }
    if Safe(n, robin) {
      forall i, j | 0 <= i < j < n
        ensures Looks(n, robin)[i] != Looks(n, robin)[j]
      {
        LooksApart(n, robin, i + 1, j + 1);
      }
    } else {
      LooksCollide(n, robin);
    }
    assert NeverFails(n, robin) <==> AlwaysMeets(n, Looks(n, robin));
  }

  /** The counter, or one before zero when it is about to wrap. */
  function Start(robin: nat): int {
    if robin == Word - 1 then -1 else robin
  }

  /** A counter that stands for a position in an endless round, as long as it moves at most some steps. */
  ghost predicate StandsFor(n: nat, robin: nat, s: int, steps: nat)
    requires n > 0
  {
    robin == s % Word && (Word % n == 0 || -1 <= s < Word - steps)
  }

  lemma {:induction false} StartStands(n: nat, robin: nat, steps: nat)
    requires 0 < n < Word && robin < Word && (Start(robin) + steps < Word || Word % n == 0)
    ensures StandsFor(n, robin, Start(robin), steps)
  {
    if robin == Word - 1 {
      ModIs(-1, Word, -1, Word - 1);
    } else {
      ModIs(robin, Word, 0, robin);
    }
  }

  lemma {:induction false} LookIs(n: nat, robin: nat, s: int, steps: nat, i: nat)
    requires n > 0 && StandsFor(n, robin, s, steps) && 1 <= i <= steps
    ensures (robin + i) % Word == (s + i) % Word && Look(n, robin, i) == (s + i) % n
  {
    assert s == robin + Word * (s / Word);
    ModShift(robin + i, Word, s / Word);
    if Word % n == 0 {
      assert Word == n * (Word / n);
      ModOfWrap(s + i, n, Word);
    } else {
      ModIs(s + i, Word, 0, s + i);
    }
  }

  lemma {:induction false} LooksApart(n: nat, robin: nat, i: nat, j: nat)
    requires 0 < n < Word && robin < Word && Safe(n, robin) && 1 <= i < j <= n
    ensures Look(n, robin, i) != Look(n, robin, j)
  {
    hide StandsFor, Look, Divides;
    var s := Start(robin);
    StartStands(n, robin, n);
    LookIs(n, robin, s, n, i);
    LookIs(n, robin, s, n, j);
    SameMod(s + j, s + i, n);
    TooSmall(n, j - i);
    assert s + j - (s + i) == j - i;
  }

  /** A wrap with a jump makes two looks collide: either one host is left out, or the first is met twice. */
  lemma {:induction false} LooksCollide(n: nat, robin: nat)
    requires 0 < n < Word && robin < Word && !Safe(n, robin)
    ensures !Distinct(Looks(n, robin))
  {
    hide Look;
    var c, s := Word - 1 - robin, Word % n;
    if c <= s {
      forall i | 0 <= i < n
        ensures Looks(n, robin)[i] != n - 1
      {
        NotTheLast(n, robin, i + 1);
      }
      assert n - 1 !in Looks(n, robin);
      assert forall v :: v in Looks(n, robin) ==> v < n;
      Pigeonhole(Looks(n, robin), n);
    } else {
      FirstTwice(n, robin);
      assert Looks(n, robin)[c - s] == 0 && Looks(n, robin)[c] == 0;
    }
  }

  lemma {:induction false} NotTheLast(n: nat, robin: nat, i: nat)
    requires 0 < n < Word && robin < Word && !Safe(n, robin) && 1 <= i <= n && Word - 1 - robin <= Word % n
    ensures Look(n, robin, i) != n - 1
  {
    var x, q, s := robin + i, Word / n, Word % n;
    assert Word == n * q + s;
    if x < Word {
      ModIs(x, Word, 0, x);
      ModIs(x, n, q, x - n * q);
    } else {
      ModIs(x, Word, 1, x - Word);
      ModIs(x - Word, n, 0, x - Word);
    }
  }

  lemma {:induction false} FirstTwice(n: nat, robin: nat)
    requires 0 < n < Word && robin < Word && !Safe(n, robin) && Word - 1 - robin > Word % n
    ensures var c := Word - 1 - robin; Look(n, robin, c + 1 - Word % n) == 0 && Look(n, robin, c + 1) == 0
  {
    var q, s := Word / n, Word % n;
    assert Word == n * q + s;
    ModIs(n * q, Word, 0, n * q);
    ModIs(n * q, n, q, 0);
    ModIs(Word, Word, 1, 0);
  }

  /**
   From every value of the counter a selection finds an available host, if there is one, exactly for
   pools of a power of two hosts: the very pools for which hashing does.
   */
  lemma {:induction false} AlwaysFindsIffPowerOfTwo(n: nat)
    requires 0 < n < Word
    ensures (forall robin: nat :: robin < Word ==> NeverFails(n, robin)) <==> PowerOfTwo(n)
  {
    hide NeverFails, PowerOfTwo;
    WordDivisors(n);
    forall robin: nat | robin < Word
      ensures NeverFails(n, robin) <==> Safe(n, robin)
    {
      NeverFailsIffSafe(n, robin);
    }
    if Word % n != 0 {
      assert n > 1;
      assert !Safe(n, Word - 2);
      assert !NeverFails(n, Word - 2);
    }
  }

  /** Three hosts and a counter two short of the wrap: the third host is never looked at. */
  lemma {:induction false} WrapExample()
    ensures AnyAvailable(OnlyOne(3, 2)) && Pick(OnlyOne(3, 2), Word - 2, 3).0 == None
  {
    var pool := OnlyOne(3, 2);
    assert pool[2].Available();
  }

  // ---------------------------------------------------------------------------------------------
  // How often each host is selected
  // ---------------------------------------------------------------------------------------------

  /** What a number of selections in a row pick while the pool stays as it is. */
  function Selections(pool: seq<Host>, robin: nat, m: nat): seq<Option<nat>>
    decreases m
  {
    if m == 0 then []
    else var (choice, next) := Pick(pool, robin, |pool|); [choice] + Selections(pool, next, m - 1)
  }

  /** The available hosts met on an endless round, over a number of steps from a position. */
  function Hits(pool: seq<Host>, s: int, steps: nat): seq<nat>
    requires |pool| > 0
    decreases steps
  {
    if steps == 0 then [] else HitAt(pool, s + 1) + Hits(pool, s + 1, steps - 1)
  }

  function HitAt(pool: seq<Host>, p: int): seq<nat>
    requires |pool| > 0
  {
    var k := p % |pool|;
    if pool[k].Available() then [k] else []
  }

  function Somes(s: seq<nat>): seq<Option<nat>> {
    seq(|s|, i requires 0 <= i < |s| => Some(s[i]))
  }

  lemma {:induction false} StandsForNext(n: nat, robin: nat, s: int, steps: nat)
    requires n > 0 && steps > 0 && StandsFor(n, robin, s, steps)
    ensures (robin + 1) % Word % n == (s + 1) % n && StandsFor(n, (robin + 1) % Word, s + 1, steps - 1)
  {
    LookIs(n, robin, s, steps, 1);
  }

  /** A pick is the first hit of the round, and the counter goes on standing for the position of the hit. */
  lemma {:induction false} PickIsHit(pool: seq<Host>, robin: nat, s: int, steps: nat, tries: nat) returns (i: nat)
    requires |pool| > 0 && StandsFor(|pool|, robin, s, steps) && tries <= steps && Hits(pool, s, tries) != []
    ensures 0 < i <= tries
    ensures var (choice, next) := Pick(pool, robin, tries);
            && StandsFor(|pool|, next, s + i, steps - i) && choice.Some?
            && Hits(pool, s, steps) == [choice.value] + Hits(pool, s + i, steps - i)
    decreases tries
  {
    hide StandsFor, Pick, Hits, HitAt;
    NoHits(pool, s);
    var next := (robin + 1) % Word;
    StandsForNext(|pool|, robin, s, steps);
    PickNext(pool, robin, s, steps, tries);
    FirstHit(pool, s, steps);
    FirstHit(pool, s, tries);
    if HitAt(pool, s + 1) != [] {
      i := 1;
    } else {
      i := PickIsHit(pool, next, s + 1, steps - 1, tries - 1);
      i := i + 1;
    }
  }

  lemma {:induction false} PickNext(pool: seq<Host>, robin: nat, s: int, steps: nat, tries: nat)
    requires |pool| > 0 && 0 < tries <= steps && StandsFor(|pool|, robin, s, steps)
    ensures var next, hit := (robin + 1) % Word, HitAt(pool, s + 1);
            if hit == [] then Pick(pool, robin, tries) == Pick(pool, next, tries - 1)
            else |hit| == 1 && Pick(pool, robin, tries) == (Some(hit[0]), next)
  {
    hide StandsFor, Host.Available;
    StandsForNext(|pool|, robin, s, steps);
  }

  /** A whole round meets whatever is available, so a hit at any distance means one within a round. */
  lemma {:induction false} HitWithinRound(pool: seq<Host>, s: int, steps: nat)
    requires |pool| > 0 && Hits(pool, s, steps) != []
    ensures Hits(pool, s, if steps <= |pool| then steps else |pool|) != []
  {
    hide Hits;
    if steps > |pool| {
      var j := SomeHit(pool, s, steps);
      var n, d := |pool|, (j - 1) / |pool|;
      var near := (j - 1) % n + 1;
      assert s + j == s + near + n * d;
      ModShift(s + near, n, d);
      AtHit(pool, s, n, near);
    }
  }

  lemma {:induction false} SomeHit(pool: seq<Host>, s: int, steps: nat) returns (j: nat)
    requires |pool| > 0 && Hits(pool, s, steps) != []
    ensures 1 <= j <= steps && HitAt(pool, s + j) != []
    decreases steps
  {
    hide HitAt;
    if HitAt(pool, s + 1) != [] {
      j := 1;
    } else {
      j := SomeHit(pool, s + 1, steps - 1);
      j := j + 1;
    }
  }

  lemma {:induction false} AtHit(pool: seq<Host>, s: int, steps: nat, j: nat)
    requires |pool| > 0 && 1 <= j <= steps && HitAt(pool, s + j) != []
    ensures Hits(pool, s, steps) != []
    decreases steps
  {
    hide HitAt;
    if j > 1 {
      assert s + 1 + (j - 1) == s + j;
      AtHit(pool, s + 1, steps - 1, j - 1);
    }
  }

  /** Selections in a row pick the hits of the round in order. */
  lemma {:induction false} SelectionsAreHits(pool: seq<Host>, robin: nat, s: int, steps: nat, m: nat)
    requires |pool| > 0 && StandsFor(|pool|, robin, s, steps) && m <= |Hits(pool, s, steps)|
    ensures Selections(pool, robin, m) == Somes(Hits(pool, s, steps)[..m])
    decreases m
  {
    hide StandsFor, Pick, Hits;
    if m > 0 {
      var n, hits := |pool|, Hits(pool, s, steps);
      HitWithinRound(pool, s, steps);
      var tries := if steps <= n then steps else n;
      var i := PickIsHit(pool, robin, s, steps, tries);
      MoreTries(pool, robin, tries, n);
      var (choice, next) := Pick(pool, robin, tries);
      var rest := Hits(pool, s + i, steps - i);
      SelectionsAreHits(pool, next, s + i, steps - i, m - 1);
      assert hits[..m] == [choice.value] + rest[..m - 1];
      assert Somes(hits[..m]) == [choice] + Somes(rest[..m - 1]);
    }
  }

  lemma {:induction false} MoreTries(pool: seq<Host>, robin: nat, tries: nat, more: nat)
    requires tries <= more && Pick(pool, robin, tries).0.Some?
    ensures Pick(pool, robin, more) == Pick(pool, robin, tries)
    decreases tries
  {
    if tries > 0 && pool != [] {
      var next := (robin + 1) % Word;
      if !pool[next % |pool|].Available() {
        MoreTries(pool, next, tries - 1, more - 1);
      }
    }
  }

  lemma {:induction false} HitsSplit(pool: seq<Host>, s: int, a: nat, b: nat)
    requires |pool| > 0
    ensures Hits(pool, s, a + b) == Hits(pool, s, a) + Hits(pool, s + a, b)
    decreases a
  {
    hide HitAt;
    if a > 0 {
      HitsSplit(pool, s + 1, a - 1, b);
      assert s + 1 + (a - 1) == s + a;
    }
  }

  /** The positions of the available hosts. */
  ghost function Up(pool: seq<Host>): (r: set<nat>)
    ensures forall k: nat :: k in r <==> k < |pool| && pool[k].Available()
  {
    set k: nat | k < |pool| && pool[k].Available()
  }

  function Once(b: bool): nat { if b then 1 else 0 }

  /** Moving the start of a round by one step changes nothing in what it meets. */
  lemma {:induction false} RoundMoves(pool: seq<Host>, s: int)
    requires |pool| > 0
    ensures multiset(Hits(pool, s, |pool|)) == multiset(Hits(pool, s + 1, |pool|))
  {
    hide Hits, HitAt;
    var n := |pool|;
    FirstHit(pool, s, n);
    HitsSplit(pool, s + 1, n - 1, 1);
    FirstHit(pool, s + n, 1);
    NoHits(pool, s + n + 1);
    SameHit(pool, s + 1);
    assert s + 1 + (n - 1) == s + n && s + 1 + n == s + n + 1;
    var first, middle := HitAt(pool, s + 1), Hits(pool, s + 1, n - 1);
    assert Hits(pool, s, n) == first + middle && Hits(pool, s + 1, n) == middle + first;
  }

  lemma {:induction false} FirstHit(pool: seq<Host>, s: int, steps: nat)
    requires |pool| > 0 && steps > 0
    ensures Hits(pool, s, steps) == HitAt(pool, s + 1) + Hits(pool, s + 1, steps - 1)
  {
  }

  lemma {:induction false} SameHit(pool: seq<Host>, p: int)
    requires |pool| > 0
    ensures HitAt(pool, p + |pool|) == HitAt(pool, p)
  {
    ModShift(p, |pool|, 1);
  }

  /** From the beginning of the pool, a part of a round meets each available host of that part once. */
  lemma {:induction false} PartOfRound(pool: seq<Host>, i: nat, v: nat)
    requires |pool| > 0 && i <= |pool|
    ensures multiset(Hits(pool, i - 1, |pool| - i))[v] == Once(i <= v < |pool| && pool[v].Available())
    decreases |pool| - i
  {
    hide Hits, Host.Available;
    NoHits(pool, i - 1);
    if i < |pool| {
      PartOfRound(pool, i + 1, v);
      ModIs(i, |pool|, 0, i);
      FirstHit(pool, i - 1, |pool| - i);
      assert i - 1 + 1 == i && HitAt(pool, i) == if pool[i].Available() then [i] else [];
    }
  }

  lemma {:induction false} RoundFrom(pool: seq<Host>, s: int)
    requires |pool| > 0
    ensures multiset(Hits(pool, s, |pool|)) == multiset(Hits(pool, -1, |pool|))
    decreases if s < -1 then -1 - s else s + 1
  {
    hide Hits;
    if s < -1 {
      RoundMoves(pool, s);
      RoundFrom(pool, s + 1);
    } else if s > -1 {
      RoundMoves(pool, s - 1);
      RoundFrom(pool, s - 1);
    }
  }

  /** A whole round, from anywhere, meets each available host once. */
  lemma {:induction false} RoundMeetsOnce(pool: seq<Host>, s: int)
    requires |pool| > 0
    ensures multiset(Hits(pool, s, |pool|)) == multiset(Up(pool)) && |Hits(pool, s, |pool|)| == |Up(pool)|
  {
    hide Hits;
    RoundFrom(pool, s);
    var hits: seq<nat> := Hits(pool, s, |pool|);
    var met: multiset<nat>, up: multiset<nat> := multiset(hits), multiset(Up(pool));
    forall v: nat
      ensures met[v] == up[v]
    {
      PartOfRound(pool, 0, v);
    }
    assert |met| == |hits|;
    assert met == up;
  }

  lemma {:induction false} RoundsMeet(pool: seq<Host>, s: int, k: nat, v: nat)
    requires |pool| > 0
    ensures |Hits(pool, s, k * |pool|)| == k * |Up(pool)|
    ensures multiset(Hits(pool, s, k * |pool|))[v] == k * Once(v in Up(pool))
    decreases k
  {
    hide Hits;
    var n := |pool|;
    if k == 0 {
      NoHits(pool, s);
    } else {
      RoundMeetsOnce(pool, s);
      RoundsMeet(pool, s + n, k - 1, v);
      assert k * n == n + (k - 1) * n;
      HitsSplit(pool, s, n, (k - 1) * n);
      assert k * |Up(pool)| == |Up(pool)| + (k - 1) * |Up(pool)|;
      assert k * Once(v in Up(pool)) == Once(v in Up(pool)) + (k - 1) * Once(v in Up(pool));
      assert multiset(Up(pool))[v] == Once(v in Up(pool));
    }
  }

  lemma {:induction false} NoHits(pool: seq<Host>, s: int)
    requires |pool| > 0
    ensures Hits(pool, s, 0) == []
  {
  }

  lemma {:induction false} SomesCount(s: seq<nat>, v: nat)
    ensures multiset(Somes(s))[Some(v)] == multiset(s)[v]
  {
    if s != [] {
      SomesCount(s[1..], v);
      assert s == [s[0]] + s[1..];
      assert Somes(s) == [Some(s[0])] + Somes(s[1..]);
    }
  }

  /**
   Fairness: while the available hosts stay the same, any k selections for each of them, in a row,
   pick each exactly k times; provided the counter does not wrap during k rounds or wraps without a
   jump.
   */
  lemma {:induction false} Fair(pool: seq<Host>, robin: nat, k: nat, v: nat)
    requires 0 < |pool| < Word && robin < Word && v in Up(pool)
    requires Start(robin) + k * |pool| < Word || Word % |pool| == 0
    ensures multiset(Selections(pool, robin, k * |Up(pool)|))[Some(v)] == k
  {
    hide Hits, Selections, Up, Somes;
    var n, s := |pool|, Start(robin);
    StartStands(n, robin, k * n);
    RoundsMeet(pool, s, k, v);
    var hits := Hits(pool, s, k * n);
    SelectionsAreHits(pool, robin, s, k * n, |hits|);
    assert hits[..|hits|] == hits;
    SomesCount(hits, v);
    assert Once(true) == 1;
  }
}
