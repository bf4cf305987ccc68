/**
 Environment references in tokens, `{%NAME%}` and `{$NAME}` (caddyfile/parse.go, replaceEnvVars).
 The environment is an arbitrary function from names to values.
 */
module EnvRefs {

  // ---------------------------------------------------------------------------------------------
  // The string operations the substitution uses
  // ---------------------------------------------------------------------------------------------

  predicate OccursAt(s: string, sub: string, j: int) {
    0 <= j && j + |sub| <= |s| && s[j..j + |sub|] == sub
  }

  /** The offset of the first occurrence of sub in s, or -1 when there is none. */
  function Index(s: string, sub: string): (i: int)
    requires sub != []
    ensures i == -1 || OccursAt(s, sub, i)
  {
    if |s| < |sub| then -1
    else if s[..|sub|] == sub then 0
    else
      var i := Index(s[1..], sub);
      assert i >= 0 ==> s[i + 1..i + 1 + |sub|] == s[1..][i..i + |sub|];
      if i == -1 then -1 else i + 1
  }

  lemma {:induction false} IndexIsFirst(s: string, sub: string, j: int)
    requires sub != [] && OccursAt(s, sub, j)
    ensures 0 <= Index(s, sub) <= j
  {
    if s[..|sub|] != sub {
      assert s[1..][j - 1..j - 1 + |sub|] == sub;
      IndexIsFirst(s[1..], sub, j - 1);
    }
  }

  /** s with every occurrence of ref, taken from the left without overlap, replaced by val. */
  function ReplaceAll(s: string, ref: string, val: string): string
    requires ref != []
    decreases s
  {
    if |s| < |ref| then s
    else if s[..|ref|] == ref then val + ReplaceAll(s[|ref|..], ref, val)
    else [s[0]] + ReplaceAll(s[1..], ref, val)
  }

  /** The number of opening braces in s. */
  function Braces(s: string): nat {
    if s == [] then 0 else (if s[0] == '{' then 1 else 0) + Braces(s[1..])
  }

  lemma {:induction false} BracesConcat(a: string, b: string)
    ensures Braces(a + b) == Braces(a) + Braces(b)
  {
    if a == [] {
      assert a + b == b;
    } else {
      BracesConcat(a[1..], b);
      assert (a + b)[1..] == a[1..] + b;
    }
  }

  lemma {:induction false} BraceFree(s: string)
    requires '{' !in s
    ensures Braces(s) == 0
  {
    if s != [] {
      BraceFree(s[1..]);
    }
  }

  /** Replacing references by brace-free text never adds braces, and drops one if a reference occurs. */
  lemma {:induction false} ReplaceDropsBraces(s: string, ref: string, val: string)
    requires ref != [] && ref[0] == '{' && '{' !in val
    ensures Braces(ReplaceAll(s, ref, val)) <= Braces(s)
    ensures Index(s, ref) >= 0 ==> Braces(ReplaceAll(s, ref, val)) < Braces(s)
    decreases s
  {
    if |s| < |ref| {
    } else if s[..|ref|] == ref {
      var tail := ReplaceAll(s[|ref|..], ref, val);
      ReplaceDropsBraces(s[|ref|..], ref, val);
      BraceFree(val);
      BracesConcat(val, tail);
      assert s == ref + s[|ref|..];
      BracesConcat(ref, s[|ref|..]);
    } else {
      ReplaceDropsBraces(s[1..], ref, val);
      assert ([s[0]] + ReplaceAll(s[1..], ref, val))[1..] == ReplaceAll(s[1..], ref, val);
    }
  }

  // ---------------------------------------------------------------------------------------------
  // Substitution
  // ---------------------------------------------------------------------------------------------

  type Env = string -> string

  /** The value of a variable; os.Getenv in the source. */
  function Getenv(env: Env, name: string): string {
    env(name)
  }

  ghost predicate NoBraceValues(env: Env) {
    forall name :: '{' !in Getenv(env, name)
  }

  lemma {:induction false} ValueBraceFree(env: Env, name: string)
    requires NoBraceValues(env)
    ensures '{' !in Getenv(env, name)
  {
  }

  /** The first marker of s is absent, not closed, or closed before it names a variable. */
  predicate Settled(s: string, refStart: string, refEnd: string)
    requires refStart != [] && refEnd != []
  {
    var i := Index(s, refStart);
    i == -1 || Index(s[i..], refEnd) <= |refStart|
  }

  /** The first reference of s, markers included. */
  function FirstRef(s: string, refStart: string, refEnd: string): (ref: string)
    requires refStart != [] && refEnd != [] && !Settled(s, refStart, refEnd)
    ensures |ref| > |refStart| + |refEnd| && ref[0] == refStart[0]
    ensures OccursAt(s, ref, Index(s, refStart))
  {
    var i := Index(s, refStart);
    var e := i + Index(s[i..], refEnd);
    assert s[i..i + |refStart|][0] == s[i];
    s[i..e + |refEnd|]
  }

  function Value(env: Env, ref: string, refStart: string, refEnd: string): string
    requires |ref| > |refStart| + |refEnd|
  {
    Getenv(env, ref[|refStart|..|ref| - |refEnd|])
  }

  /** One turn of the substitution loop: the first reference is looked up and replaced everywhere. */
  function Turn(env: Env, s: string, refStart: string, refEnd: string): string
    requires refStart != [] && refEnd != [] && !Settled(s, refStart, refEnd)
  {
    var ref := FirstRef(s, refStart, refEnd);
    ReplaceAll(s, ref, Value(env, ref, refStart, refEnd))
  }

  lemma {:induction false} TurnDropsBraces(env: Env, s: string, refStart: string, refEnd: string)
    requires refStart != [] && refEnd != [] && refStart[0] == '{'
    requires NoBraceValues(env) && !Settled(s, refStart, refEnd)
    ensures Braces(Turn(env, s, refStart, refEnd)) < Braces(s)
  {
    var ref := FirstRef(s, refStart, refEnd);
    IndexIsFirst(s, ref, Index(s, refStart));
    ValueBraceFree(env, ref[|refStart|..|ref| - |refEnd|]);
    ReplaceDropsBraces(s, ref, Value(env, ref, refStart, refEnd));
  }

  /** The string after at most n turns. */
  function After(env: Env, s: string, refStart: string, refEnd: string, n: nat): string
    requires refStart != [] && refEnd != []
    decreases n
  {
    if n == 0 || Settled(s, refStart, refEnd) then s
    else After(env, Turn(env, s, refStart, refEnd), refStart, refEnd, n - 1)
  }

  /** The loop ends: after some number of turns there is nothing left to do. */
  ghost predicate Ends(env: Env, s: string, refStart: string, refEnd: string)
    requires refStart != [] && refEnd != []
  {
    exists n: nat :: Settled(After(env, s, refStart, refEnd, n), refStart, refEnd)
  }

  /** One turn of the loop leaves one fewer to go. */
  lemma {:induction false} AfterTurn(env: Env, s: string, refStart: string, refEnd: string, n: nat)
    requires refStart != [] && refEnd != [] && !Settled(s, refStart, refEnd)
    requires Settled(After(env, s, refStart, refEnd, n), refStart, refEnd)
    ensures n > 0
    ensures After(env, s, refStart, refEnd, n) == After(env, Turn(env, s, refStart, refEnd), refStart, refEnd, n - 1)
  {
  }

  /** However many turns are enough, the result is the same. */
  lemma {:induction false} EnoughTurns(env: Env, s: string, refStart: string, refEnd: string, m: nat, n: nat)
    requires refStart != [] && refEnd != []
    requires Settled(After(env, s, refStart, refEnd, m), refStart, refEnd)
    requires Settled(After(env, s, refStart, refEnd, n), refStart, refEnd)
    ensures After(env, s, refStart, refEnd, m) == After(env, s, refStart, refEnd, n)
    decreases m
  {
    hide Settled, Turn;
    if !Settled(s, refStart, refEnd) {
      AfterTurn(env, s, refStart, refEnd, m);
      AfterTurn(env, s, refStart, refEnd, n);
      EnoughTurns(env, Turn(env, s, refStart, refEnd), refStart, refEnd, m - 1, n - 1);
    }
  }

  /** The result of one pass in an environment without opening braces in its values. */
  function Pass(env: Env, s: string, refStart: string, refEnd: string): (r: string)
    requires refStart != [] && refEnd != [] && refStart[0] == '{' && NoBraceValues(env)
    ensures Settled(r, refStart, refEnd)
    decreases Braces(s)
  {
    if Settled(s, refStart, refEnd) then s
    else
      TurnDropsBraces(env, s, refStart, refEnd);
      Pass(env, Turn(env, s, refStart, refEnd), refStart, refEnd)
  }

  /** In such an environment the loop ends on every string, in at most as many turns as there are opening braces. */
  lemma {:induction false} PassEnds(env: Env, s: string, refStart: string, refEnd: string, n: nat)
    requires refStart != [] && refEnd != [] && refStart[0] == '{' && NoBraceValues(env) && Braces(s) <= n
    ensures After(env, s, refStart, refEnd, n) == Pass(env, s, refStart, refEnd)
    ensures Ends(env, s, refStart, refEnd)
    decreases n
  {
    hide Settled, Turn, Braces;
    if !Settled(s, refStart, refEnd) {
      TurnDropsBraces(env, s, refStart, refEnd);
      PassEnds(env, Turn(env, s, refStart, refEnd), refStart, refEnd, n - 1);
    }
    assert Settled(After(env, s, refStart, refEnd, n), refStart, refEnd);
  }

  /**
   One pass over a string, wherever the loop ends. What is left has no marker, or a first marker that
   is unclosed or names nothing.
   */
  method ReplaceEnvReferences(env: Env, str: string, refStart: string, refEnd: string) returns (s: string)
    requires refStart != [] && refEnd != [] && Ends(env, str, refStart, refEnd)
    ensures Settled(s, refStart, refEnd) && exists n: nat :: s == After(env, str, refStart, refEnd, n)
    ensures refStart[0] == '{' && NoBraceValues(env) ==> s == Pass(env, str, refStart, refEnd)
  {
    hide Pass, Index, ReplaceAll, After;
    ghost var turns: nat :| Settled(After(env, str, refStart, refEnd, turns), refStart, refEnd);
    ghost var left := turns;
    s := str;
    var index := Index(s, refStart);
    while index != -1
      invariant index == Index(s, refStart)
      invariant After(env, str, refStart, refEnd, turns) == After(env, s, refStart, refEnd, left)
      decreases left, index
    {
      var endIndex := Index(s[index..], refEnd);
      if endIndex == -1 {
        break;
      }
      endIndex := endIndex + index;
      if endIndex > index + |refStart| {
        var ref := s[index..endIndex + |refEnd|];
        AfterTurn(env, s, refStart, refEnd, left);
        s := ReplaceAll(s, ref, Value(env, ref, refStart, refEnd));
        left := left - 1;
      } else {
        break;
      }
      index := Index(s, refStart);
    }
    AfterSettled(env, s, refStart, refEnd, left);
    PassIs(env, str, refStart, refEnd, turns);
  }

  lemma {:induction false} AfterSettled(env: Env, s: string, refStart: string, refEnd: string, n: nat)
    requires refStart != [] && refEnd != [] && Settled(s, refStart, refEnd)
    ensures After(env, s, refStart, refEnd, n) == s
  {
  }

  lemma {:induction false} PassIs(env: Env, s: string, refStart: string, refEnd: string, n: nat)
    requires refStart != [] && refEnd != [] && Settled(After(env, s, refStart, refEnd, n), refStart, refEnd)
    ensures refStart[0] == '{' && NoBraceValues(env) ==>
              After(env, s, refStart, refEnd, n) == Pass(env, s, refStart, refEnd)
  {
    hide After, Pass, Settled, Braces;
    if refStart[0] == '{' && NoBraceValues(env) {
      PassEnds(env, s, refStart, refEnd, Braces(s));
      EnoughTurns(env, s, refStart, refEnd, n, Braces(s));
    }
  }

  /** Both syntaxes, Windows first. */
  function ReplaceEnvVars(env: Env, s: string): string
    requires NoBraceValues(env)
  {
    Pass(env, Pass(env, s, "{%", "%}"), "{$", "}")
  }

  /** Both passes end on a string. */
  ghost predicate BothEnd(env: Env, s: string) {
    exists n: nat ::
      Settled(After(env, s, "{%", "%}", n), "{%", "%}") && Ends(env, After(env, s, "{%", "%}", n), "{$", "}")
  }

  method SubstituteToken(env: Env, str: string) returns (s: string)
    requires BothEnd(env, str)
    ensures Settled(s, "{$", "}")
    ensures exists n: nat, m: nat :: s == After(env, After(env, str, "{%", "%}", n), "{$", "}", m)
    ensures NoBraceValues(env) ==> s == ReplaceEnvVars(env, str)
  {
    hide After, Pass, Settled;
    ghost var n: nat :| Settled(After(env, str, "{%", "%}", n), "{%", "%}") &&
                        Ends(env, After(env, str, "{%", "%}", n), "{$", "}");
    s := ReplaceEnvReferences(env, str, "{%", "%}");
    ghost var k: nat :| s == After(env, str, "{%", "%}", k);
    EnoughTurns(env, str, "{%", "%}", n, k);
    s := ReplaceEnvReferences(env, s, "{$", "}");
  }

  /** Substitution ends on every string when no value has an opening brace. */
  lemma {:induction false} SubstitutionEnds(env: Env, s: string)
    requires NoBraceValues(env)
    ensures BothEnd(env, s)
  {
    hide After, Pass, Settled, Braces;
    var n := Braces(s);
    PassEnds(env, s, "{%", "%}", n);
    var t := After(env, s, "{%", "%}", n);
    PassEnds(env, t, "{$", "}", Braces(t));
    assert Settled(t, "{%", "%}");
  }

  /** Both loops end on s, and leave t. */
  ghost predicate Yields(env: Env, s: string, t: string) {
    exists n: nat, m: nat :: YieldsAfter(env, s, t, n, m)
  }

  ghost predicate YieldsAfter(env: Env, s: string, t: string, n: nat, m: nat) {
    && Settled(After(env, s, "{%", "%}", n), "{%", "%}")
    && t == After(env, After(env, s, "{%", "%}", n), "{$", "}", m) && Settled(t, "{$", "}")
  }

  /** Text without markers is left alone, in every environment. */
  lemma {:induction false} NoMarkers(env: Env, s: string)
    requires Index(s, "{%") == -1 && Index(s, "{$") == -1
    ensures Yields(env, s, s) && forall t :: Yields(env, s, t) ==> t == s
  {
    hide Index;
    assert Settled(s, "{%", "%}") && Settled(s, "{$", "}");
    forall n: nat
      ensures After(env, s, "{%", "%}", n) == s && After(env, s, "{$", "}", n) == s
    {
      AfterSettled(env, s, "{%", "%}", n);
      AfterSettled(env, s, "{$", "}", n);
    }
    hide After, Settled;
    assert YieldsAfter(env, s, s, 0, 0);
  }

  /** In an environment without opening braces in its values, every text yields what the two passes give. */
  lemma {:induction false} YieldsPass(env: Env, s: string, t: string)
    requires NoBraceValues(env)
    ensures Yields(env, s, t) <==> t == ReplaceEnvVars(env, s)
  {
    hide After, Pass, Settled, Braces;
    var n := Braces(s);
    PassEnds(env, s, "{%", "%}", n);
    var u := After(env, s, "{%", "%}", n);
    PassEnds(env, u, "{$", "}", Braces(u));
    assert YieldsAfter(env, s, ReplaceEnvVars(env, s), n, Braces(u));
    if Yields(env, s, t) {
      var k: nat, m: nat :| YieldsAfter(env, s, t, k, m);
      EnoughTurns(env, s, "{%", "%}", n, k);
      EnoughTurns(env, u, "{$", "}", Braces(u), m);
    }
  }

  lemma {:induction false} SelfReferenceTurns(env: Env)
    requires Getenv(env, "X") == "{$X}"
    ensures !Settled("{$X}", "{$", "}") && Turn(env, "{$X}", "{$", "}") == "{$X}"
  {
    var s := "{$X}";
    assert s[..2] == "{$";
    assert s[0..] == s;
    assert s[1..] == "$X}" && s[1..][1..] == "X}" && s[1..][1..][1..] == "}";
    assert s[..1] == "{" && s[1..][..1] == "$" && s[1..][1..][..1] == "X" && s[1..][1..][1..][..1] == "}";
    assert Index(s[1..][1..][1..], "}") == 0;
    assert Index(s[1..][1..], "}") == 1;
    assert Index(s[1..], "}") == 2;
    assert Index(s, "}") == 3;
    assert s[0..4] == s && s[2..3] == "X";
    assert ReplaceAll(s, s, s) == s + ReplaceAll(s[4..], s, s);
    assert s[4..] == [];
  }

  /**
   The condition on values is needed: a variable whose value refers to itself makes a turn that
   changes nothing, and no number of turns is enough.
   */
  lemma {:induction false} SelfReferenceNeverSettles(env: Env)
    requires Getenv(env, "X") == "{$X}"
    ensures !Ends(env, "{$X}", "{$", "}")
  {
    hide Settled, Turn, After;
    forall n: nat
      ensures !Settled(After(env, "{$X}", "{$", "}", n), "{$", "}")
    {
      SelfReferenceAfter(env, n);
    }
  }

  lemma {:induction false} SelfReferenceAfter(env: Env, n: nat)
    requires Getenv(env, "X") == "{$X}"
    ensures After(env, "{$X}", "{$", "}", n) == "{$X}" && !Settled("{$X}", "{$", "}")
  {
    hide Settled, Turn;
    SelfReferenceTurns(env);
    if n > 0 {
      SelfReferenceAfter(env, n - 1);
    }
  }
}
