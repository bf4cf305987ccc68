/**
 Selection by hashing (caddyhttp/proxy/policy.go, hostByHashing): triangular probing over the pool
 from the hash, with a 32-bit index. It finds an available host for every hash and every state of
 the pool exactly when the number of hosts is a power of two.
 */
module Probing {
  import opened Numbers
  import opened Upstream
  import opened Wrappers

  /** The sum of the numbers up to i. */
  function Triangle(i: nat): nat {
    if i == 0 then 0 else Triangle(i - 1) + i
  }

  lemma {:induction false} TriangleIs(i: nat)
    ensures 2 * Triangle(i) == i * (i + 1)
  {
    if i > 0 {
      TriangleIs(i - 1);
      assert i * (i + 1) == (i - 1) * i + 2 * i;
    }
  }

  lemma {:induction false} Difference(i: nat, j: nat)
    ensures 2 * (Triangle(i) - Triangle(j)) == (i - j) * (i + j + 1)
  {
    hide Triangle;
    TriangleIs(i);
    TriangleIs(j);
    assert (i - j) * (i + j + 1) == i * (i + 1) - j * (j + 1);
  }

  /** The host looked at in turn i: the index is cut to 32 bits before it is reduced to the pool. */
  function Slot(n: nat, hash: nat, i: nat): (r: nat)
    requires n > 0
    ensures r < n
  {
    ((hash % n + Triangle(i)) % Word) % n
  }

  /** The hosts looked at, in order. */
  function Slots(n: nat, hash: nat): (r: seq<nat>)
    requires n > 0
    ensures InPool(n, r)
  {
    seq(n, i requires 0 <= i < n => Slot(n, hash, i))
  }

  /** As long as no index reaches 2^32, turn i looks i (i + 1) / 2 hosts after the hash's own, which is first. */
  lemma {:induction false} SlotIs(n: nat, hash: nat, i: nat)
    requires 0 < n < Word && i < n && n + Triangle(i) <= Word
    ensures Slots(n, hash)[i] == (hash + Triangle(i)) % n && 2 * Triangle(i) == i * (i + 1)
    ensures Slots(n, hash)[0] == hash % n
  {
    TriangleIs(i);
    hide Triangle;
    NoWrap(n, hash, Triangle(i));
    FirstSlot(n, hash);
  }

  lemma {:induction false} NoWrap(n: nat, hash: nat, t: nat)
    requires 0 < n && n + t <= Word
    ensures ((hash % n + t) % Word) % n == (hash + t) % n
  {
    var q, m := hash / n, hash % n;
    assert hash == m + n * q;
    ModShift(m + t, n, q);
  }

  lemma {:induction false} FirstSlot(n: nat, hash: nat)
    requires 0 < n < Word
    ensures Slots(n, hash)[0] == hash % n
  {
    NoWrap(n, hash, 0);
  }

  /**
   Looks at the pool's hosts in the order of the slots and takes the first available one. An empty
   pool makes it panic, on the division by its length.
   */
  method HostByHashing(pool: seq<Host>, hash: nat) returns (panicked: bool, choice: Option<nat>)
    requires |pool| < Word && hash < Word
    ensures Chosen(pool, choice)
    ensures panicked <==> |pool| == 0
    ensures choice == None <==> |pool| == 0 || !Meets(pool, Slots(|pool|, hash))
    ensures choice.Some? ==>
              exists i :: 0 <= i < |pool| && choice.value == Slots(|pool|, hash)[i] &&
                          forall j :: 0 <= j < i ==> !pool[Slots(|pool|, hash)[j]].Available()
  {
    hide Slot, Triangle, Host.Available;
    var poolLen := |pool|;
    if poolLen == 0 {
      return true, None;
    }
    var index := hash % poolLen;
    ghost var slots := Slots(poolLen, hash);
    for i := 0 to poolLen
      invariant i == 0 ==> index == hash % poolLen
      invariant i > 0 ==> index == (hash % poolLen + Triangle(i - 1)) % Word
      invariant forall j :: 0 <= j < i ==> !pool[slots[j]].Available()
    {
      ghost var before := index;
      index := (index + i) % Word;
      IndexStep(poolLen, hash, i, before, index);
      var slot := index % poolLen;
      assert slot == slots[i];
      if pool[slot].Available() {
        return false, Some(slot);
      }
    }
    return false, None;
  }

  lemma {:induction false} IndexStep(n: nat, hash: nat, i: nat, before: nat, index: nat)
    requires 0 < n < Word && index == (before + i) % Word
    requires i == 0 ==> before == hash % n
    requires i > 0 ==> before == (hash % n + Triangle(i - 1)) % Word
    ensures index == (hash % n + Triangle(i)) % Word && Slot(n, hash, i) == index % n
  {
    if i > 0 {
      var x := hash % n + Triangle(i - 1);
      assert x + i == x % Word + i + Word * (x / Word);
      ModShift(x % Word + i, Word, x / Word);
    }
  }

  // ---------------------------------------------------------------------------------------------
  // Powers of two
  // ---------------------------------------------------------------------------------------------

  /** Of the two factors of a difference of triangles one is odd, so the power of two divides the other. */
  lemma {:induction false} FactorsApart(a: nat, i: nat, j: nat)
    requires j < i < Pow2(a)
    ensures !Divides(Pow2(a), Triangle(i) - Triangle(j))
  {
    hide Triangle, Divides, Pow2;
    var x, y := i - j, i + j + 1;
    if Divides(Pow2(a), Triangle(i) - Triangle(j)) {
      Difference(i, j);
      DivideTwice(a, Triangle(i) - Triangle(j), x * y);
      TwicePower(a);
      NoSmallFactors(a + 1, x, y);
    }
  }

  lemma {:induction false} NoSmallFactors(a: nat, x: int, y: int)
    requires 0 < x < Pow2(a) && 0 < y < Pow2(a) && x % 2 != y % 2
    ensures !Divides(Pow2(a), x * y)
  {
    hide Divides, Pow2;
    if Divides(Pow2(a), x * y) {
      if x % 2 == 1 {
        OddFactor(a, x, y);
        TooSmall(Pow2(a), y);
      } else {
        OddFactorOnRight(a, x, y);
        TooSmall(Pow2(a), x);
      }
    }
  }

  lemma {:induction false} OddFactorOnRight(a: nat, x: int, y: int)
    requires y % 2 == 1 && Divides(Pow2(a), x * y)
    ensures Divides(Pow2(a), x)
  {
    assert x * y == y * x;
    OddFactor(a, y, x);
  }

  lemma {:induction false} DivideTwice(a: nat, d: int, e: int)
    requires Divides(Pow2(a), d) && 2 * d == e
    ensures Divides(Pow2(a + 1), e)
  {
    var q: int :| d == Pow2(a) * q;
    assert e == Pow2(a + 1) * q;
  }

  /** In a pool of a power of two hosts no two turns look at the same one. */
  lemma {:induction false} SlotsApart(n: nat, hash: nat, i: nat, j: nat)
    requires PowerOfTwo(n) && n < Word && j < i < n
    ensures Slot(n, hash, i) != Slot(n, hash, j)
  {
    hide Triangle, Divides;
    var a: nat :| n == Pow2(a);
    WordIsPower();
    PowerDivides(n, 32);
    var x, y := hash % n + Triangle(i), hash % n + Triangle(j);
    ModOfWrap(x, n, Word);
    ModOfWrap(y, n, Word);
    SameMod(x, y, n);
    FactorsApart(a, i, j);
    assert x - y == Triangle(i) - Triangle(j);
  }

  // ---------------------------------------------------------------------------------------------
  // Other sizes
  // ---------------------------------------------------------------------------------------------

  /** For n = 2^a * m with m odd, m > 1, two turns whose triangles differ by n: by the factors m and 2^(a+1). */
  lemma {:induction false} TurnsApartByN(n: nat) returns (i: nat, j: nat)
    requires n > 0 && !PowerOfTwo(n)
    ensures j < i < n && Triangle(i) - Triangle(j) == n
  {
    hide Triangle, Pow2, PowerOfTwo;
    var a, m := OddPart(n);
    OddPartIsOne(n, a, m);
    i, j := FactorsAsTurns(Pow2(a), m);
    Difference(i, j);
  }

  lemma {:induction false} OddPartIsOne(n: nat, a: nat, m: nat)
    requires n == Pow2(a) * m
    ensures m == 1 ==> PowerOfTwo(n)
  {
  }

  /** The turns i and j for which i - j and i + j + 1 are the two factors. */
  lemma {:induction false} FactorsAsTurns(b: nat, m: nat) returns (i: nat, j: nat)
    requires b >= 1 && m >= 3 && m % 2 == 1
    ensures j < i < b * m && (i - j) * (i + j + 1) == 2 * (b * m)
  {
    i := (m + 2 * b - 1) / 2;
    Bound(b, m);
    if m < 2 * b {
      j := (2 * b - 1 - m) / 2;
      Product(i - j, i + j + 1, m, 2 * b);
    } else {
      j := (m - 1 - 2 * b) / 2;
      Product(i - j, i + j + 1, 2 * b, m);
    }
    assert m * (2 * b) == 2 * (b * m) && (2 * b) * m == 2 * (b * m);
  }

  lemma {:induction false} Bound(b: nat, m: nat)
    requires b >= 1 && m >= 3
    ensures m + 2 * b - 1 < 2 * (b * m)
  {
    Multiples(m - 1, 2 * b - 1);
    assert (m - 1) * (2 * b - 1) == 2 * (b * m) - m - 2 * b + 1;
  }

  lemma {:induction false} Product(x: int, y: int, x': int, y': int)
    requires x == x' && y == y'
    ensures x * y == x' * y'
  {
  }

  /** No triangle of a turn after the first is a multiple of the word size. */
  lemma {:induction false} TriangleNotWord(i: nat)
    requires 0 < i < Word
    ensures !Divides(Word, Triangle(i))
  {
    hide Pow2, Divides;
    WordIsPower();
    TwicePower(32);
    if Divides(Word, Triangle(i)) {
      TriangleIs(i);
      DivideTwice(32, Triangle(i), i * (i + 1));
      NoSmallFactors(33, i, i + 1);
    }
  }

  lemma {:induction false} TwicePower(a: nat)
    ensures Pow2(a + 1) == 2 * Pow2(a)
  {
  }

  /** Otherwise some hash looks at one host twice. */
  lemma {:induction false} SlotsCollide(n: nat) returns (hash: nat, i: nat, j: nat)
    requires 0 < n < Word && !PowerOfTwo(n)
    ensures hash < n && j < i < n && Slot(n, hash, i) == Slot(n, hash, j)
  {
    hide Triangle, Divides, PowerOfTwo;
    i, j := TurnsApartByN(n);
    var t := Triangle(j) % Word;
    if t + n < Word {
      hash := 0;
    } else {
      TriangleNotWord(i);
      NotAllTheWay(n, Triangle(i), Triangle(j));
      hash := Word - t;
    }
    SameSlot(n, hash, Triangle(i), Triangle(j));
  }

  lemma {:induction false} NotAllTheWay(n: nat, x: nat, y: nat)
    requires x == y + n
    ensures y % Word + n == Word ==> Divides(Word, x)
  {
    if y % Word + n == Word {
      assert x == Word * (y / Word + 1);
    }
  }

  /** Two indexes n apart that one hash keeps on the same side of the wrap reduce to the same slot. */
  lemma {:induction false} SameSlot(n: nat, hash: nat, x: nat, y: nat)
    requires 0 < n < Word && hash < n && x == y + n
    requires (y % Word + n < Word && hash == 0) || hash == Word - y % Word
    ensures ((hash % n + x) % Word) % n == ((hash % n + y) % Word) % n
  {
    var t, q := y % Word, y / Word;
    ModIs(hash, n, 0, hash);
    if hash == 0 {
      ModIs(x, Word, q, t + n);
      ModShift(t, n, 1);
    } else {
      AtTheWrap(n, hash, x, y);
    }
  }

  lemma {:induction false} AtTheWrap(n: nat, hash: nat, x: nat, y: nat)
    requires 0 < n < Word && hash < n && x == y + n && hash == Word - y % Word
    ensures ((hash + x) % Word) % n == ((hash + y) % Word) % n
  {
    var q := y / Word;
    ModIs(hash + y, Word, q + 1, 0);
    ModIs(hash + x, Word, q + 1, n);
    ModIs(n, n, 1, 0);
    ModIs(0, n, 0, 0);
  }

  // ---------------------------------------------------------------------------------------------
  // The exact condition
  // ---------------------------------------------------------------------------------------------

  /** Every hash finds an available host in every pool of n hosts that has one. */
  ghost predicate AlwaysFinds(n: nat)
    requires n > 0
  {
    forall hash: nat :: hash < Word ==> AlwaysMeets(n, Slots(n, hash))
  }

  /** Hashing finds an available host whenever there is one exactly for pools of a power of two hosts. */
  lemma {:induction false} AlwaysFindsIffPowerOfTwo(n: nat)
    requires 0 < n < Word
    ensures AlwaysFinds(n) <==> PowerOfTwo(n)
  {
    hide Slot, PowerOfTwo, AlwaysMeets;
    if PowerOfTwo(n) {
      forall hash: nat | hash < Word
        ensures AlwaysMeets(n, Slots(n, hash))
      {
        forall i, j | 0 <= i < j < n
          ensures Slots(n, hash)[i] != Slots(n, hash)[j]
        {
          SlotsApart(n, hash, j, i);
        }
        AlwaysMeetsIffDistinct(n, Slots(n, hash));
      }
    } else {
      var hash, i, j := SlotsCollide(n);
      assert Slots(n, hash)[i] == Slots(n, hash)[j];
      AlwaysMeetsIffDistinct(n, Slots(n, hash));
    }
  }

  /** Three hosts, the third one available: the hash 0 never looks at it. */
  lemma {:induction false} ThreeHostsExample()
    ensures AnyAvailable(OnlyOne(3, 2)) && !Meets(OnlyOne(3, 2), Slots(3, 0))
  {
    var pool := OnlyOne(3, 2);
    assert pool[2].Available();
    assert Slot(3, 0, 0) == 0 && Slot(3, 0, 1) == 1 && Slot(3, 0, 2) == 0;
  }
}
