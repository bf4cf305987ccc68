/**
 Host names with wildcard labels: the search that caddyhttp/httpserver/vhosttrie.go (matchHost) and
 caddytls/handshake.go (getConfig) each write out for themselves.
 */
module HostNames {
  import opened Wrappers

  /** The labels of a name: the pieces between dots. */
  function Split(s: string): (r: seq<string>)
    ensures |r| >= 1
  {
    if s == [] then [[]]
    else if s[0] == '.' then [[]] + Split(s[1..])
    else var r := Split(s[1..]); [[s[0]] + r[0]] + r[1..]
  }

  function Join(labels: seq<string>): string
    requires |labels| >= 1
  {
    if |labels| == 1 then labels[0] else labels[0] + "." + Join(labels[1..])
  }

  lemma {:induction false} JoinSplit(s: string)
    ensures Join(Split(s)) == s
  {
    if s != [] {
      JoinSplit(s[1..]);
      var r := Split(s[1..]);
      assert s == [s[0]] + s[1..];
      if s[0] == '.' {
        assert ([[]] + r)[1..] == r;
      } else {
        var first := [[s[0]] + r[0]] + r[1..];
        assert first[1..] == r[1..];
      }
    }
  }

  ghost predicate NoDots(labels: seq<string>) {
    forall i :: 0 <= i < |labels| ==> '.' !in labels[i]
  }

  lemma {:induction false} SplitNoDots(s: string)
    ensures NoDots(Split(s))
  {
    if s != [] {
      SplitNoDots(s[1..]);
    }
  }

  lemma {:induction false} SplitWord(s: string)
    requires '.' !in s
    ensures Split(s) == [s]
  {
    if s != [] {
      SplitWord(s[1..]);
      assert s == [s[0]] + s[1..];
    }
  }

  lemma {:induction false} SplitAtDot(word: string, rest: string)
    requires '.' !in word
    ensures Split(word + "." + rest) == [word] + Split(rest)
  {
    if word == [] {
      assert word + "." + rest == "." + rest;
      assert ("." + rest)[1..] == rest;
    } else {
      var s := word + "." + rest;
      SplitAtDot(word[1..], rest);
      assert s[1..] == word[1..] + "." + rest;
      assert word == [word[0]] + word[1..];
    }
  }

  lemma {:induction false} SplitJoin(labels: seq<string>)
    requires |labels| >= 1 && NoDots(labels)
    ensures Split(Join(labels)) == labels
  {
    if |labels| == 1 {
      SplitWord(labels[0]);
    } else {
      SplitJoin(labels[1..]);
      SplitAtDot(labels[0], Join(labels[1..]));
    }
  }

  /** The labels with the first k replaced by wildcards. */
  function Wild(labels: seq<string>, k: nat): seq<string> {
    seq(|labels|, i requires 0 <= i < |labels| => if i < k then "*" else labels[i])
  }

  /** The name with its first k labels replaced by wildcards. */
  function Candidate(host: string, k: nat): string {
    Join(Wild(Split(host), k))
  }

  lemma {:induction false} CandidateSplits(host: string, k: nat)
    ensures Split(Candidate(host, k)) == Wild(Split(host), k)
  {
    SplitNoDots(host);
    SplitJoin(Wild(Split(host), k));
  }

  lemma {:induction false} CandidateNone(host: string)
    ensures Candidate(host, 0) == host
  {
    assert Wild(Split(host), 0) == Split(host);
    JoinSplit(host);
  }

  // ---------------------------------------------------------------------------------------------
  // Which key a host selects
  // ---------------------------------------------------------------------------------------------

  /**
   A key covers a host when they have as many labels, the key's first labels are wildcards, and the
   rest are the host's own.
   */
  ghost predicate Covers(key: string, host: string) {
    |Split(key)| == |Split(host)| &&
    exists k: nat :: k <= |Split(host)| && CoversWith(key, host, k)
  }

  ghost predicate CoversWith(key: string, host: string, k: nat)
    requires |Split(key)| == |Split(host)|
  {
    && (forall i :: 0 <= i < |Split(key)| && i < k ==> Split(key)[i] == "*")
    && (forall i :: 0 <= i < |Split(key)| && k <= i ==> Split(key)[i] == Split(host)[i])
  }

  /** How many labels of a key, from the first, are wildcards. */
  function Stars(labels: seq<string>): nat {
    if labels != [] && labels[0] == "*" then 1 + Stars(labels[1..]) else 0
  }

  /** The search: the first candidate, from k wildcards on, that is a key. */
  function SearchFrom(keys: set<string>, host: string, k: nat): (r: Option<string>)
    ensures r.Some? ==> r.value in keys
    decreases |Split(host)| + 1 - k
  {
    if k > |Split(host)| then None
    else if Candidate(host, k) in keys then Some(Candidate(host, k))
    else SearchFrom(keys, host, k + 1)
  }

  /** The key a host selects: itself, else the candidate with the fewest wildcards. */
  function Select(keys: set<string>, host: string): (r: Option<string>)
    ensures r.Some? ==> r.value in keys
  {
    SearchFrom(keys, host, 0)
  }

  lemma {:induction false} CandidateCovers(host: string, k: nat)
    ensures k <= |Split(host)| ==> Covers(Candidate(host, k), host)
  {
    CandidateSplits(host, k);
    if k <= |Split(host)| {
      assert CoversWith(Candidate(host, k), host, k);
    }
  }

  lemma {:induction false} CoveringIsCandidate(key: string, host: string, k: nat)
    requires |Split(key)| == |Split(host)| && CoversWith(key, host, k)
    ensures key == Candidate(host, k)
  {
    assert Split(key) == Wild(Split(host), k);
    JoinSplit(key);
  }

  lemma {:induction false} MoreStars(labels: seq<string>, j: nat, k: nat)
    requires j <= k
    ensures Stars(Wild(labels, j)) <= Stars(Wild(labels, k))
  {
    if labels != [] {
      var j', k' := if j > 0 then j - 1 else 0, if k > 0 then k - 1 else 0;
      assert Wild(labels, j)[1..] == Wild(labels[1..], j');
      assert Wild(labels, k)[1..] == Wild(labels[1..], k');
      MoreStars(labels[1..], j', k');
    }
  }

  lemma {:induction false} SearchFinds(keys: set<string>, host: string, k: nat)
    ensures match SearchFrom(keys, host, k)
            case None => forall j: nat :: k <= j <= |Split(host)| ==> Candidate(host, j) !in keys
            case Some(key) =>
              exists j: nat :: k <= j <= |Split(host)| && key == Candidate(host, j) && key in keys &&
                               forall i: nat :: k <= i < j ==> Candidate(host, i) !in keys
    decreases |Split(host)| + 1 - k
  {
    hide Split, Candidate;
    if k <= |Split(host)| && Candidate(host, k) !in keys {
      SearchFinds(keys, host, k + 1);
    }
  }

  /**
   The selected key is a key that covers the host and, of all keys that do, one with the fewest
   leading wildcards; nothing is selected only if no key covers the host.
   */
  lemma {:induction false} SelectIsClosest(keys: set<string>, host: string)
    ensures match Select(keys, host)
            case None => forall key :: key in keys ==> !Covers(key, host)
            case Some(key) =>
              && key in keys && Covers(key, host)
              && (host in keys ==> key == host)
              && forall other :: other in keys && Covers(other, host) ==> Stars(Split(key)) <= Stars(Split(other))
  {
    hide Split, Candidate, Wild, Stars, CoversWith;
    CandidateNone(host);
    SearchFinds(keys, host, 0);
    match Select(keys, host)
    case None =>
      forall key | key in keys
        ensures !Covers(key, host)
      {
        if Covers(key, host) {
          var j: nat :| j <= |Split(host)| && CoversWith(key, host, j);
          CoveringIsCandidate(key, host, j);
        }
      }
    case Some(key) =>
      var j: nat :| j <= |Split(host)| && key == Candidate(host, j) &&
                    forall i: nat :: 0 <= i < j ==> Candidate(host, i) !in keys;
      CandidateCovers(host, j);
      forall other | other in keys && Covers(other, host)
        ensures Stars(Split(key)) <= Stars(Split(other))
      {
        var i: nat :| i <= |Split(host)| && CoversWith(other, host, i);
        CoveringIsCandidate(other, host, i);
        CandidateSplits(host, i);
        CandidateSplits(host, j);
        MoreStars(Split(host), j, i);
      }
  }

  /** One step of the search in place: the labels with one more of them overwritten. */
  lemma {:induction false} WildNext(host: string, k: nat, labels: seq<string>)
    requires k < |Split(host)| && labels == Wild(Split(host), k)
    ensures labels[k := "*"] == Wild(Split(host), k + 1)
  {
  }

  /** The search from a step on is the search from the next one when the candidate is no key. */
  lemma {:induction false} SearchNext(keys: set<string>, host: string, k: nat)
    requires k <= |Split(host)|
    ensures Candidate(host, k) in keys ==> SearchFrom(keys, host, k) == Some(Candidate(host, k))
    ensures Candidate(host, k) !in keys ==> SearchFrom(keys, host, k) == SearchFrom(keys, host, k + 1)
  {
  }

  /** Nothing is left to search after every label has become a wildcard. */
  lemma {:induction false} SearchEnds(keys: set<string>, host: string)
    ensures SearchFrom(keys, host, |Split(host)| + 1) == None
    ensures Wild(Split(host), 0) == Split(host)
  {
  }
}
