/** Facts about powers of two, remainders and counting that the selection policies rest on. */
module Numbers {

  /** The number of values of an unsigned 32-bit integer. */
  const Word: nat := 0x1_0000_0000

  function Pow2(a: nat): (r: nat)
    ensures r >= 1
  {
    if a == 0 then 1 else 2 * Pow2(a - 1)
  }

  ghost predicate PowerOfTwo(n: nat) {
    exists a: nat :: n == Pow2(a)
  }

  ghost predicate Divides(d: nat, x: int) {
    exists q: int :: x == d * q
  }

  lemma {:induction false} Pow2Adds(a: nat, b: nat)
    ensures Pow2(a + b) == Pow2(a) * Pow2(b)
  {
    if a > 0 {
      Pow2Adds(a - 1, b);
    }
  }

  lemma {:induction false} Pow2Grows(a: nat, b: nat)
    requires a <= b
    ensures Pow2(a) <= Pow2(b)
  {
    if a < b {
      Pow2Grows(a, b - 1);
    }
  }

  lemma {:induction false} WordIsPower()
    ensures Word == Pow2(32)
  {
    assert Pow2(8) == 256;
    Pow2Adds(8, 8);
    Pow2Adds(16, 16);
  }

  /** A power of two that divides a product with an odd factor divides the other factor. */
  lemma {:induction false} OddFactor(a: nat, x: int, y: int)
    requires x % 2 == 1 && Divides(Pow2(a), x * y)
    ensures Divides(Pow2(a), y)
  {
    if a == 0 {
      assert y == Pow2(0) * y;
    } else {
      var q: int :| x * y == Pow2(a) * q;
      var p := Pow2(a - 1);
      assert x * y == 2 * (p * q);
      OddTimes(x, y, p * q);
      var z := y / 2;
      assert y == 2 * z;
      assert x * z == p * q by {
        assert 2 * (x * z) == x * y;
      }
      OddFactor(a - 1, x, z);
      var r: int :| z == p * r;
      assert y == Pow2(a) * r;
    }
  }

  lemma {:induction false} OddTimes(x: int, y: int, z: int)
    requires x % 2 == 1 && x * y == 2 * z
    ensures y % 2 == 0
  {
    var h := x / 2;
    assert x * y == 2 * (h * y) + y;
  }

  /** A multiple other than zero is at least as large, either way. */
  lemma {:induction false} Multiples(d: nat, q: int)
    ensures q >= 1 ==> d * q >= d
    ensures q <= -1 ==> d * q + d <= 0
    ensures q == 0 ==> d * q == 0
  {
    if q >= 1 {
      assert d * (q - 1) >= 0;
    }
    if q <= -1 {
      assert d * (-q - 1) >= 0;
    }
  }

  /** Nothing divides a smaller positive number. */
  lemma {:induction false} TooSmall(d: nat, x: int)
    requires 0 < x < d
    ensures !Divides(d, x)
  {
    if Divides(d, x) {
      var q: int :| x == d * q;
      Multiples(d, q);
    }
  }

  /** Every positive number is a power of two times an odd one. */
  lemma {:induction false} OddPart(n: nat) returns (a: nat, m: nat)
    requires n >= 1
    ensures n == Pow2(a) * m && m % 2 == 1
  {
    if n % 2 == 1 {
      a, m := 0, n;
    } else {
      a, m := OddPart(n / 2);
      a := a + 1;
    }
  }

  /** The divisors of a power of two are powers of two. */
  lemma {:induction false} DivisorOfPower(n: nat, b: nat)
    requires n >= 1 && Divides(n, Pow2(b))
    ensures PowerOfTwo(n)
  {
    var a, m := OddPart(n);
    var q: int :| Pow2(b) == n * q;
    var rest := Pow2(a) * q;
    assert Pow2(b) == m * rest;
    assert Divides(Pow2(b), m * rest) by {
      assert m * rest == Pow2(b) * 1;
    }
    OddFactor(b, m, rest);
    var r: int :| rest == Pow2(b) * r;
    OddIsOne(Pow2(b), m, rest, r);
    assert n == Pow2(a);
  }

  lemma {:induction false} OddIsOne(p: nat, m: nat, rest: int, r: int)
    requires p >= 1 && p == m * rest && rest == p * r
    ensures m == 1
  {
    assert p == p * (m * r) by {
      assert m * (p * r) == p * (m * r);
    }
    assert p * (m * r - 1) == 0;
    Multiples(p, m * r - 1);
    Multiples(m, r);
  }

  /** The numbers that go into the word size without remainder are the powers of two. */
  lemma {:induction false} WordDivisors(n: nat)
    requires 0 < n < Word
    ensures Word % n == 0 <==> PowerOfTwo(n)
  {
    hide Pow2;
    WordIsPower();
    if Word % n == 0 {
      assert Word == n * (Word / n);
      DivisorOfPower(n, 32);
    }
    if PowerOfTwo(n) {
      PowerDivides(n, 32);
      var q: int :| Word == n * q;
      ModShift(0, n, q);
    }
  }

  /** A smaller power of two divides a larger one. */
  lemma {:induction false} PowerDivides(n: nat, b: nat)
    requires PowerOfTwo(n) && n <= Pow2(b)
    ensures Divides(n, Pow2(b))
  {
    var a: nat :| n == Pow2(a);
    if a <= b {
      Pow2Adds(a, b - a);
    } else {
      Pow2Grows(b, a);
      assert Pow2(b) == n * 1;
    }
  }

  // ---------------------------------------------------------------------------------------------
  // Remainders
  // ---------------------------------------------------------------------------------------------

  lemma {:induction false} ModIs(x: int, n: nat, q: int, r: int)
    requires n > 0 && x == n * q + r && 0 <= r < n
    ensures x % n == r
  {
    var q', r' := x / n, x % n;
    assert x == n * q' + r';
    assert n * (q - q') == n * q - n * q';
    Multiples(n, q - q');
  }

  lemma {:induction false} ModShift(x: int, n: nat, q: int)
    requires n > 0
    ensures (x + n * q) % n == x % n
  {
    var d := x / n;
    assert x + n * q == n * (d + q) + x % n;
    ModIs(x + n * q, n, d + q, x % n);
  }

  /** Same remainder, and only then, when the difference is a multiple. */
  lemma {:induction false} SameMod(x: int, y: int, n: nat)
    requires n > 0
    ensures x % n == y % n <==> Divides(n, x - y)
  {
    if x % n == y % n {
      assert x - y == n * (x / n - y / n);
    }
    if Divides(n, x - y) {
      var q: int :| x - y == n * q;
      ModShift(y, n, q);
    }
  }

  /** Wrapping at a multiple of n does not change the remainder by n. */
  lemma {:induction false} ModOfWrap(x: int, n: nat, w: nat)
    requires n > 0 && w > 0 && Divides(n, w)
    ensures (x % w) % n == x % n
  {
    var q: int :| w == n * q;
    var d := x / w;
    assert x % w == x + n * (-(q * d)) by {
      assert w * d == n * (q * d);
    }
    ModShift(x, n, -(q * d));
  }

  // ---------------------------------------------------------------------------------------------
  // Counting
  // ---------------------------------------------------------------------------------------------

  function Below(n: nat): (r: set<nat>)
    ensures forall v: nat :: v in r <==> v < n
  {
    if n == 0 then {} else Below(n - 1) + {n - 1}
  }

  lemma {:induction false} BelowSize(n: nat)
    ensures |Below(n)| == n
  {
    if n > 0 {
      BelowSize(n - 1);
    }
  }

  function Elements(s: seq<nat>): (r: set<nat>)
    ensures forall v :: v in r <==> v in s
  {
    set v | v in s
  }

  ghost predicate Distinct(s: seq<nat>) {
    forall i, j :: 0 <= i < j < |s| ==> s[i] != s[j]
  }

  lemma {:induction false} ElementsSize(s: seq<nat>)
    ensures |Elements(s)| <= |s|
    ensures Distinct(s) ==> |Elements(s)| == |s|
  {
    if s != [] {
      var t, last := s[..|s| - 1], s[|s| - 1];
      ElementsSize(t);
      assert s == t + [last];
      assert Elements(s) == Elements(t) + {last};
    }
  }

  lemma {:induction false} SubsetSize(a: set<nat>, b: set<nat>)
    requires a <= b
    ensures |a| <= |b|
    ensures |a| == |b| ==> a == b
  {
    if a != {} {
      var x :| x in a;
      SubsetSize(a - {x}, b - {x});
    }
  }

  /** The pigeonhole principle: n numbers below n take every value if and only if no two are equal. */
  lemma {:induction false} Pigeonhole(s: seq<nat>, n: nat)
    requires |s| == n && forall v :: v in s ==> v < n
    ensures Distinct(s) <==> forall v: nat :: v < n ==> v in s
  {
    BelowSize(n);
    ElementsSize(s);
    SubsetSize(Elements(s), Below(n));
    if !Distinct(s) {
      var i, j :| 0 <= i < j < |s| && s[i] == s[j];
      var t := s[..j] + s[j + 1..];
      assert t[i] == s[j];
      assert Elements(s) <= Elements(t);
      ElementsSize(t);
      SubsetSize(Elements(s), Elements(t));
      assert Elements(s) != Below(n);
      assert exists v: nat :: v < n && v !in s;
    }
  }
}
