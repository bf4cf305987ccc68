/**
 The virtual-host trie (caddyhttp/httpserver/vhosttrie.go): a mutable trie of nodes, one branch per
 host, one edge per character of a path. It is proved to agree with a plain reading of the log of
 insertions: the branch the host selects, and in it the longest inserted path that is a prefix of
 the request's, with the site inserted last under that path.
 */
module VHostTrie {
  import opened HostNames
  import opened Wrappers

  /** What a match answers: the site and the path it was inserted under. */
  datatype Hit<S> = Hit(site: S, path: string)

  /** Sites by what is left of the path; and the same for the children of a node. */
  type Content<S> = map<string, Hit<S>>
  type Kids<S> = map<char, Content<S>>

  /** Sites by path; a missing (nil) site takes an entry away. */
  function Put<S>(content: Content<S>, p: string, site: Option<S>, path: string): Content<S> {
    if site.Some? then content[p := Hit(site.value, path)] else content - {p}
  }

  /** The entry for the longest non-empty prefix of path, of at most k characters. */
  function Longest<S>(content: Content<S>, path: string, k: nat): Option<Hit<S>>
    requires k <= |path|
  {
    if k == 0 then None
    else if path[..k] in content then Some(content[path[..k]])
    else Longest(content, path, k - 1)
  }

  lemma {:induction false} LongestBeyond<S>(content: Content<S>, path: string, k: nat, n: nat)
    requires k <= n <= |path| && forall j :: k < j <= n ==> path[..j] !in content
    ensures Longest(content, path, n) == Longest(content, path, k)
  {
    if k < n {
      LongestBeyond(content, path, k, n - 1);
    }
  }

  /** The entries of a node are its own site's and those of its children, one character further. */
  ghost predicate Tied<S>(content: Content<S>, own: Option<Hit<S>>, kids: Kids<S>) {
    && ([] in content <==> own.Some?) && (own.Some? ==> content[[]] == own.value)
    && (forall p :: p in content && p != [] ==>
                      p[0] in kids && p[1..] in kids[p[0]] && content[p] == kids[p[0]][p[1..]])
    && (forall c, q :: c in kids && q in kids[c] ==> [c] + q in content)
  }

  lemma {:induction false} TiedPut<S>(content: Content<S>, own: Option<Hit<S>>, kids: Kids<S>,
                                      p: string, site: Option<S>, path: string)
    requires Tied(content, own, kids) && p != [] && p[0] in kids
    ensures Tied(Put(content, p, site, path), own, kids[p[0] := Put(kids[p[0]], p[1..], site, path)])
  {
    hide Put;
    var content', kids' := Put(content, p, site, path), kids[p[0] := Put(kids[p[0]], p[1..], site, path)];
    PutAt(content, p, site, path, []);
    forall q | q in content' && q != []
      ensures q[0] in kids' && q[1..] in kids'[q[0]] && content'[q] == kids'[q[0]][q[1..]]
    {
      PutAt(content, p, site, path, q);
      PutAt(kids[p[0]], p[1..], site, path, q[1..]);
      SameFirst(p, q);
    }
    forall c, q | c in kids' && q in kids'[c]
      ensures [c] + q in content'
    {
      var full := [c] + q;
      assert full[0] == c && full[1..] == q;
      PutAt(content, p, site, path, full);
      PutAt(kids[p[0]], p[1..], site, path, q);
      SameFirst(p, full);
    }
  }

  lemma {:induction false} PutAt<S>(content: Content<S>, p: string, site: Option<S>, path: string, q: string)
    ensures q != p ==> (q in Put(content, p, site, path) <==> q in content)
    ensures q != p && q in content ==> Put(content, p, site, path)[q] == content[q]
    ensures p in Put(content, p, site, path) <==> site.Some?
    ensures site.Some? ==> Put(content, p, site, path)[p] == Hit(site.value, path)
  {
  }

  lemma {:induction false} SameFirst(p: string, q: string)
    requires p != [] && q != []
    ensures p == q <==> p[0] == q[0] && p[1..] == q[1..]
  {
    assert p == [p[0]] + p[1..] && q == [q[0]] + q[1..];
  }

  lemma {:induction false} TiedHere<S>(content: Content<S>, own: Option<Hit<S>>, kids: Kids<S>,
                                       site: Option<S>, path: string)
    requires Tied(content, own, kids)
    ensures Tied(Put(content, "", site, path), if site.Some? then Some(Hit(site.value, path)) else None, kids)
  {
  }

  lemma {:induction false} TiedNew<S>(content: Content<S>, own: Option<Hit<S>>, kids: Kids<S>, c: char)
    requires Tied(content, own, kids) && c !in kids
    ensures Tied(content, own, kids[c := map[]])
  {
  }

  class Node<S> {
    var edges: map<char, Node<S>>
    var site: Option<S>
    var path: string

    /** The entries at and below this node, by what is left of the path; and those of its children. */
    ghost var content: Content<S>
    ghost var kids: Kids<S>
    ghost var repr: set<object>

    ghost predicate Valid()
      reads this, repr
      ensures Valid() ==> this in repr
      decreases repr, 2
    {
      Parts()
    }

    /** What being valid means, one level deep; the proofs below look no further. */
    ghost predicate Parts()
      reads this, repr
      decreases repr, 1
    {
      && this in repr
      && (forall c :: c in edges ==> ChildValid(c))
      && (forall c, d :: c in edges && d in edges && c != d ==> edges[c].repr !! edges[d].repr)
      && kids.Keys == edges.Keys
      && Tied(content, Own(), kids)
    }

    lemma {:induction false} PartsOf()
      ensures Valid() <==> Parts()
    {
    }

    ghost predicate ChildValid(c: char)
      reads this, repr
      requires c in edges
      decreases repr, 0
    {
      && edges[c] in repr && edges[c].repr < repr && this !in edges[c].repr && edges[c].Valid()
      && c in kids && edges[c].content == kids[c]
    }

    ghost function Own(): Option<Hit<S>>
      reads this
    {
      if site.Some? then Some(Hit(site.value, path)) else None
    }

    constructor ()
      ensures Valid() && fresh(repr) && content == map[]
    {
      edges, site, path := map[], None, "";
      content, kids, repr := map[], map[], {this};
    }

    /** A child that nothing was done to is as valid as before. */
    twostate lemma KeepChild(c: char)
      requires c in old(edges) && c in old(kids) && old(ChildValid(c))
      requires c in edges && edges[c] == old(edges[c]) && c in kids && kids[c] == old(kids[c])
      requires unchanged(old(edges[c].repr)) && old(repr) <= repr
      ensures ChildValid(c) && edges[c].repr == old(edges[c].repr)
    {
    }

    ghost predicate ChildrenApart()
      reads this, edges.Values
    {
      forall c, d :: c in edges && d in edges && c != d ==> edges[c].repr !! edges[d].repr
    }

    /** Makes sure there is an edge for a character. */
    method AddEdge(ch: char)
      requires Valid()
      modifies this
      ensures Valid() && fresh(repr - old(repr)) && content == old(content) && ch in edges
    {
      hide Tied, Node.Valid, Node.ChildValid;
      PartsOf();
      if ch !in edges {
        var node := new Node<S>();
        TiedNew(content, Own(), kids, ch);
        edges := edges[ch := node];
        kids := kids[ch := map[]];
        repr := repr + node.repr;
        forall c | c in old(edges)
          ensures ChildValid(c) && edges[c].repr == old(edges[c].repr) && edges[c].repr <= old(repr)
        {
          OldChild(c);
          KeepChild(c);
        }
        NewChild(ch);
        assert ChildrenApart();
        PartsOf();
      }
    }

    twostate lemma OldChild(c: char)
      requires c in old(edges) && old(ChildValid(c))
      ensures c in old(kids) && this !in old(edges[c].repr) && old(edges[c].repr) <= old(repr) &&
              old(edges[c]) in old(edges[c].repr)
    {
    }

    lemma {:induction false} NewChild(c: char)
      requires c in edges && edges[c].Valid() && edges[c].repr <= repr && this in repr && this !in edges[c].repr
      requires c in kids && edges[c].content == kids[c]
      ensures ChildValid(c)
    {
    }

    /** Inserts a site below this node, along what is left of its path. */
    method InsertPath(remainingPath: string, originalPath: string, site: Option<S>)
      requires Valid()
      modifies repr
      ensures Valid() && fresh(repr - old(repr))
      ensures content == Put(old(content), remainingPath, site, originalPath)
      decreases |remainingPath|, 1
    {
      if remainingPath == "" {
        InsertHere(originalPath, site);
        return;
      }
      AddEdge(remainingPath[0]);
      InsertBelow(remainingPath, originalPath, site);
    }

    method InsertHere(originalPath: string, site: Option<S>)
      requires Valid()
      modifies this
      ensures Valid() && repr == old(repr)
      ensures content == Put(old(content), "", site, originalPath)
    {
      hide Tied, Put, Node.Valid, Node.ChildValid;
      PartsOf();
      TiedHere(content, Own(), kids, site, originalPath);
      this.site := site;
      this.path := originalPath;
      content := Put(content, "", site, originalPath);
      forall c | c in edges
        ensures ChildValid(c)
      {
        OldChild(c);
        KeepChild(c);
      }
      PartsOf();
    }

    /** Inserts along the edge of the next character, which is there. */
    method InsertBelow(remainingPath: string, originalPath: string, site: Option<S>)
      requires Valid() && remainingPath != "" && remainingPath[0] in edges
      modifies repr
      ensures Valid() && fresh(repr - old(repr))
      ensures content == Put(old(content), remainingPath, site, originalPath)
      decreases |remainingPath|, 0
    {
      hide Tied, Put, Node.Valid, Node.ChildValid;
      PartsOf();
      var ch, rest := remainingPath[0], remainingPath[1..];
      var child := edges[ch];
      OldChild(ch);
      assert child.Valid() && child.content == kids[ch] by {
        ChildParts(ch);
      }
      TiedPut(content, Own(), kids, remainingPath, site, originalPath);
      child.InsertPath(rest, originalPath, site);
      repr := repr + child.repr;
      content := Put(content, remainingPath, site, originalPath);
      kids := kids[ch := Put(kids[ch], rest, site, originalPath)];
      forall c | c in edges && c != ch
        ensures ChildValid(c) && edges[c].repr == old(edges[c].repr) && edges[c].repr <= old(repr)
      {
        OldChild(c);
        KeepChild(c);
      }
      NewChild(ch);
      assert ChildrenApart();
      PartsOf();
    }

    lemma {:induction false} ChildParts(c: char)
      requires c in edges && ChildValid(c)
      ensures edges[c].Valid() && c in kids && edges[c].content == kids[c]
    {
    }

    /** The entry for the longest non-empty prefix of a path. */
    method MatchPath(requestPath: string) returns (longestMatch: Option<Hit<S>>)
      requires Valid()
      ensures longestMatch == Longest(content, requestPath, |requestPath|)
    {
      hide Tied, Put, Node.Valid, Node.ChildValid;
      longestMatch := None;
      var t: Node<S> := this;
      var k := 0;
      BelowSelf(content, requestPath);
      while k < |requestPath|
        invariant k <= |requestPath| && t.Valid()
        invariant Below(content, requestPath[..k], t.content)
        invariant longestMatch == Longest(content, requestPath, k)
      {
        var ch := requestPath[k];
        t.PartsOf();
        BelowNext(content, requestPath, k, t.content, t.Own(), t.kids);
        if ch !in t.edges {
          LongestBeyond(content, requestPath, k, |requestPath|);
          return;
        }
        var next := t.edges[ch];
        t.ChildParts(ch);
        next.PartsOf();
        OwnIsEmpty(next.content, next.Own(), next.kids);
        BelowEmpty(content, requestPath[..k + 1], next.content);
        if next.site.Some? {
          longestMatch := Some(Hit(next.site.value, next.path));
        }
        t := next;
        k := k + 1;
      }
    }
  }

  /** The entries of a node reached along a prefix are the entries that start with the prefix. */
  ghost predicate Below<S>(content: Content<S>, prefix: string, below: Content<S>) {
    && (forall q :: q in below ==> prefix + q in content && content[prefix + q] == below[q])
    && (forall p :: p in content && prefix <= p ==> p[|prefix|..] in below)
  }

  lemma {:induction false} BelowSelf<S>(content: Content<S>, path: string)
    ensures Below(content, path[..0], content)
  {
    assert forall q: string :: path[..0] + q == q;
    assert forall p: string :: p[|path[..0]|..] == p;
  }

  lemma {:induction false} BelowEmpty<S>(content: Content<S>, prefix: string, below: Content<S>)
    requires Below(content, prefix, below)
    ensures prefix in content <==> [] in below
    ensures prefix in content ==> content[prefix] == below[[]]
  {
    assert prefix + [] == prefix && prefix[|prefix|..] == [];
  }

  lemma {:induction false} OwnIsEmpty<S>(content: Content<S>, own: Option<Hit<S>>, kids: Kids<S>)
    requires Tied(content, own, kids)
    ensures own.Some? <==> [] in content
    ensures own.Some? ==> own.value == content[[]]
  {
  }

  /** An entry that goes on after a prefix goes on through a child. */
  lemma {:induction false} GoesOn<S>(content: Content<S>, prefix: string, below: Content<S>,
                                     own: Option<Hit<S>>, kids: Kids<S>, p: string)
    requires Below(content, prefix, below) && Tied(below, own, kids)
    ensures p in content && prefix <= p && |prefix| < |p| ==>
              p[|prefix|] in kids && p[|prefix| + 1..] in kids[p[|prefix|]]
  {
    if prefix <= p && |prefix| < |p| {
      var q := p[|prefix|..];
      assert q[0] == p[|prefix|] && q[1..] == p[|prefix| + 1..];
    }
  }

  lemma {:induction false} ComesBack<S>(content: Content<S>, prefix: string, below: Content<S>,
                                        own: Option<Hit<S>>, kids: Kids<S>, c: char, q: string)
    requires Below(content, prefix, below) && Tied(below, own, kids) && c in kids && q in kids[c]
    ensures prefix + [c] + q in content && content[prefix + [c] + q] == kids[c][q]
  {
    assert ([c] + q)[0] == c && ([c] + q)[1..] == q;
    assert prefix + ([c] + q) == prefix + [c] + q;
  }

  /** One step further along a path: to the child, or to nothing at all. */
  lemma {:induction false} BelowNext<S>(content: Content<S>, path: string, k: nat,
                                        below: Content<S>, own: Option<Hit<S>>, kids: Kids<S>)
    requires k < |path| && Below(content, path[..k], below) && Tied(below, own, kids)
    ensures path[k] in kids ==> Below(content, path[..k + 1], kids[path[k]])
    ensures path[k] !in kids ==> forall j :: k < j <= |path| ==> path[..j] !in content
  {
    hide Tied;
    var prefix, c := path[..k], path[k];
    assert path[..k + 1] == prefix + [c];
    if c in kids {
      forall q | q in kids[c]
        ensures prefix + [c] + q in content && content[prefix + [c] + q] == kids[c][q]
      {
        ComesBack(content, prefix, below, own, kids, c, q);
      }
      forall p | p in content && prefix + [c] <= p
        ensures p[k + 1..] in kids[c]
      {
        GoesOn(content, prefix, below, own, kids, p);
        assert p[k] == (prefix + [c])[k];
      }
    } else {
      forall j | k < j <= |path|
        ensures path[..j] !in content
      {
        GoesOn(content, prefix, below, own, kids, path[..j]);
        assert path[..j][..k] == prefix;
      }
    }
  }

  // ---------------------------------------------------------------------------------------------
  // The root of the trie and the log of insertions
  // ---------------------------------------------------------------------------------------------

  datatype Insertion<S> = Insertion(host: string, path: string, site: Option<S>)

  /** The hosts that were inserted. */
  function HostsOf<S>(log: seq<Insertion<S>>): set<string> {
    set i | 0 <= i < |log| :: log[i].host
  }

  /** The sites of one host after a log of insertions, by path. */
  function ContentOf<S>(log: seq<Insertion<S>>, host: string): Content<S> {
    if log == [] then map[]
    else
      var last := log[|log| - 1];
      var before := ContentOf(log[..|log| - 1], host);
      if last.host == host then Put(before, last.path, last.site, last.path) else before
  }

  lemma {:induction false} LogGrows<S>(log: seq<Insertion<S>>, e: Insertion<S>, host: string)
    ensures HostsOf(log + [e]) == HostsOf(log) + {e.host}
    ensures ContentOf(log + [e], host) ==
            if e.host == host then Put(ContentOf(log, host), e.path, e.site, e.path) else ContentOf(log, host)
  {
    var grown := log + [e];
    assert grown[..|log|] == log && grown[|log|] == e;
    assert forall i :: 0 <= i < |log| ==> grown[i] == log[i];
  }

  lemma {:induction false} NoInsertions<S>(log: seq<Insertion<S>>, host: string)
    requires host !in HostsOf(log)
    ensures ContentOf(log, host) == map[]
  {
    if log != [] {
      NoInsertions(log[..|log| - 1], host);
    }
  }

  /** The i-th insertion is the last one for its host and path. */
  ghost predicate LastFor<S>(log: seq<Insertion<S>>, host: string, path: string, i: nat) {
    && i < |log| && log[i].host == host && log[i].path == path
    && forall j :: i < j < |log| ==> !(log[j].host == host && log[j].path == path)
  }

  /** A host's sites are exactly what was inserted last under each path. */
  lemma {:induction false} ContentIsLast<S>(log: seq<Insertion<S>>, host: string, path: string)
    ensures path in ContentOf(log, host) <==> exists i: nat :: LastFor(log, host, path, i) && log[i].site.Some?
    ensures forall i: nat :: LastFor(log, host, path, i) && log[i].site.Some? ==>
              path in ContentOf(log, host) && ContentOf(log, host)[path] == Hit(log[i].site.value, path)
  {
    if log != [] {
      var n := |log| - 1;
      var before := log[..n];
      ContentIsLast(before, host, path);
      if log[n].host == host && log[n].path == path {
        assert LastFor(log, host, path, n);
        assert forall i: nat :: LastFor(log, host, path, i) ==> i == n;
      } else {
        assert forall i: nat :: LastFor(log, host, path, i) <==> LastFor(before, host, path, i);
      }
    }
  }

  /** The key of the branch for some names: what the first of them that selects any key selects. */
  function Branch(keys: set<string>, names: seq<string>): (r: Option<string>)
    ensures r.Some? ==> r.value in keys
  {
    if names == [] then None
    else if Select(keys, names[0]).Some? then Select(keys, names[0])
    else Branch(keys, names[1..])
  }

  /** What a match answers after a log of insertions. */
  function Answer<S>(log: seq<Insertion<S>>, fallbacks: seq<string>, host: string, path: string): Option<Hit<S>> {
    match Branch(HostsOf(log), [host] + fallbacks)
    case None => None
    case Some(key) => Longest(ContentOf(log, key), path, |path|)
  }

  lemma {:induction false} LongestIs<S>(content: Content<S>, path: string, k: nat)
    requires k <= |path|
    ensures match Longest(content, path, k)
            case None => forall j :: 0 < j <= k ==> path[..j] !in content
            case Some(hit) => exists j :: 0 < j <= k && path[..j] in content && hit == content[path[..j]] &&
                                          forall i :: j < i <= k ==> path[..i] !in content
  {
    if k > 0 && path[..k] !in content {
      LongestIs(content, path, k - 1);
    }
  }

  /** The i-th insertion put a site under a path that leads to the request's, and nothing replaced it. */
  ghost predicate Leads<S>(log: seq<Insertion<S>>, host: string, path: string, i: nat) {
    i < |log| && log[i].path != "" && log[i].path <= path && log[i].site.Some? && LastFor(log, host, log[i].path, i)
  }

  /**
   The meaning of an answer in terms of the log: in the branch of the host, the site inserted last
   under the longest path that is a prefix of the request's; nothing at all when there is no branch
   or the branch has no such path, whatever the other branches hold.
   */
  lemma {:induction false} AnswerIsLongest<S>(log: seq<Insertion<S>>, fallbacks: seq<string>, host: string,
                                              path: string)
    ensures Branch(HostsOf(log), [host] + fallbacks) == None ==> Answer(log, fallbacks, host, path) == None
    ensures Branch(HostsOf(log), [host] + fallbacks).Some? ==>
              var key := Branch(HostsOf(log), [host] + fallbacks).value;
              match Answer(log, fallbacks, host, path)
              case None => !exists i: nat :: Leads(log, key, path, i)
              case Some(hit) =>
                exists i: nat :: Leads(log, key, path, i) && hit == Hit(log[i].site.value, log[i].path) &&
                                 forall j: nat :: Leads(log, key, path, j) ==> |log[j].path| <= |log[i].path|
  {
    hide Branch, ContentOf, HostsOf;
    if Branch(HostsOf(log), [host] + fallbacks).Some? {
      var key := Branch(HostsOf(log), [host] + fallbacks).value;
      var content := ContentOf(log, key);
      LongestIs(content, path, |path|);
      forall i: nat | Leads(log, key, path, i)
        ensures log[i].path in content && log[i].path == path[..|log[i].path|]
      {
        ContentIsLast(log, key, log[i].path);
      }
      match Answer(log, fallbacks, host, path)
      case None =>
      case Some(hit) =>
        var k :| 0 < k <= |path| && path[..k] in content && hit == content[path[..k]] &&
                 forall i :: k < i <= |path| ==> path[..i] !in content;
        ContentIsLast(log, key, path[..k]);
        var i: nat :| LastFor(log, key, path[..k], i) && log[i].site.Some?;
        assert Leads(log, key, path, i);
    }
  }

  /** The branch is that of the first name any key covers. */
  lemma {:induction false} BranchIsFirst(keys: set<string>, names: seq<string>)
    ensures match Branch(keys, names)
            case None => forall i :: 0 <= i < |names| ==> Select(keys, names[i]) == None
            case Some(key) =>
              exists i :: 0 <= i < |names| && Select(keys, names[i]) == Some(key) &&
                          forall j :: 0 <= j < i ==> Select(keys, names[j]) == None
  {
    hide Select;
    if names != [] && Select(keys, names[0]).None? {
      var rest := names[1..];
      BranchIsFirst(keys, rest);
      assert forall i :: 0 < i < |names| ==> names[i] == rest[i - 1];
      if Branch(keys, rest).Some? {
        var key := Branch(keys, rest).value;
        var i :| 0 <= i < |rest| && Select(keys, rest[i]) == Some(key) &&
                 forall j :: 0 <= j < i ==> Select(keys, rest[j]) == None;
        assert Select(keys, names[i + 1]) == Some(key);
        assert forall j :: 0 < j < i + 1 ==> names[j] == rest[j - 1] && 0 <= j - 1 < i;
      }
    }
  }

  /** Host and path of a key: cut at the first slash; the path always starts with one. */
  function CutKey(key: string): (r: (string, string))
    ensures |r.1| >= 1 && r.1[0] == '/' && '/' !in r.0
    ensures key == r.0 + r.1 || (key == r.0 && r.1 == "/")
  {
    if key == "" then ("", "/")
    else if key[0] == '/' then ("", key)
    else var r := CutKey(key[1..]); ([key[0]] + r.0, r.1)
  }

  lemma {:induction false} CutAt(host: string, rest: string)
    requires '/' !in host && (rest == "" || rest[0] == '/')
    ensures CutKey(host + rest) == (host, if rest == "" then "/" else rest)
    decreases |host|
  {
    if host == "" {
      assert host + rest == rest;
    } else {
      assert host[0] in host && host == [host[0]] + host[1..];
      assert (host + rest)[0] == host[0] && (host + rest)[1..] == host[1..] + rest;
      CutAt(host[1..], rest);
    }
  }

  class Trie<S> {
    const fallbackHosts: seq<string>

    /** Lower case, without the port. */
    const normal: string -> string

    var edges: map<string, Node<S>>
    ghost var log: seq<Insertion<S>>
    ghost var repr: set<object>

    ghost predicate Valid()
      reads this, repr
    {
      edges.Keys == HostsOf(log) && Branches()
    }

    ghost predicate Branches()
      reads this, repr
      ensures Branches() ==> this in repr
    {
      && this in repr
      && (forall h :: h in edges ==> BranchValid(h))
      && (forall h, g :: h in edges && g in edges && h != g ==> edges[h].repr !! edges[g].repr)
    }

    ghost predicate BranchValid(h: string)
      reads this, repr
      requires h in edges
    {
      && edges[h] in repr && edges[h].repr <= repr && this !in edges[h].repr && edges[h].Valid()
      && edges[h].content == ContentOf(log, h)
    }

    constructor (normal: string -> string)
      ensures Valid() && fresh(repr) && log == [] && this.normal == normal && fallbackHosts == ["0.0.0.0", "[::]", ""]
    {
      fallbackHosts := ["0.0.0.0", "[::]", ""];
      this.normal := normal;
      edges, log, repr := map[], [], {this};
    }

    function HostOf(key: string): string { normal(CutKey(key).0) }

    /** The host of a key is what comes before the first slash, in its normal form. */
    lemma {:induction false} HostBeforeSlash(host: string, path: string)
      requires '/' !in host
      ensures HostOf(host) == normal(host) && CutKey(host).1 == "/"
      ensures HostOf(host + "/" + path) == normal(host) && CutKey(host + "/" + path).1 == "/" + path
    {
      assert host + "/" + path == host + ("/" + path);
      CutAt(host, "/" + path);
      CutAt(host, "");
      assert host + "" == host;
    }

    twostate lemma KeepBranch(h: string)
      requires h in old(edges) && h in edges && edges[h] == old(edges[h]) && old(BranchValid(h))
      requires unchanged(old(edges[h].repr)) && old(repr) <= repr && ContentOf(log, h) == old(ContentOf(log, h))
      ensures BranchValid(h) && edges[h].repr == old(edges[h].repr)
    {
    }

    lemma {:induction false} BranchParts(h: string)
      requires h in edges && BranchValid(h)
      ensures edges[h].Valid() && edges[h].repr <= repr && edges[h].content == ContentOf(log, h) &&
              this !in edges[h].repr
      ensures edges[h] in edges[h].repr
    {
    }

    /** Inserts a site under a key; the log of insertions grows by it and nothing else changes. */
    method Insert(key: string, site: Option<S>)
      requires Valid()
      modifies repr
      ensures Valid() && fresh(repr - old(repr))
      ensures log == old(log) + [Insertion(HostOf(key), CutKey(key).1, site)]
    {
      hide Trie.Branches, ContentOf, HostsOf;
      var host, path := HostOf(key), CutKey(key).1;
      if host !in edges {
        AddBranch(host);
      }
      InsertInBranch(host, path, site);
      LogGrows(old(log), Insertion(host, path, site), host);
    }

    /** A new, empty branch for a host that was never inserted. */
    method AddBranch(host: string)
      requires Branches() && host !in edges && host !in HostsOf(log)
      modifies this
      ensures Branches() && fresh(repr - old(repr)) && log == old(log) && edges.Keys == old(edges.Keys) + {host}
    {
      hide Node.Valid, Trie.BranchValid, ContentOf, HostsOf;
      var branch := new Node<S>();
      edges := edges[host := branch];
      repr := repr + branch.repr;
      forall h | h in old(edges)
        ensures BranchValid(h) && edges[h].repr == old(edges[h].repr) && edges[h].repr <= old(repr)
      {
        OldBranch(h);
        KeepBranch(h);
      }
      NoInsertions(log, host);
      NewBranch(host);
    }

    twostate lemma OldBranch(h: string)
      requires h in old(edges) && old(BranchValid(h))
      ensures this !in old(edges[h].repr) && old(edges[h].repr) <= old(repr) && old(edges[h]) in old(edges[h].repr)
    {
    }

    lemma {:induction false} NewBranch(h: string)
      requires h in edges && edges[h].Valid() && edges[h].repr <= repr && this !in edges[h].repr
      requires edges[h].content == ContentOf(log, h)
      ensures BranchValid(h)
    {
    }

    method InsertInBranch(host: string, path: string, site: Option<S>)
      requires Branches() && host in edges
      modifies repr
      ensures Branches() && fresh(repr - old(repr)) && edges == old(edges)
      ensures log == old(log) + [Insertion(host, path, site)]
    {
      hide Node.Valid, Trie.BranchValid, Put, ContentOf, HostsOf;
      var branch := edges[host];
      BranchParts(host);
      branch.InsertPath(path, path, site);
      ghost var e := Insertion(host, path, site);
      log := log + [e];
      repr := repr + branch.repr;
      forall h | h in edges && h != host
        ensures BranchValid(h) && edges[h].repr == old(edges[h].repr) && edges[h].repr <= old(repr)
      {
        OldBranch(h);
        LogGrows(old(log), e, h);
        KeepBranch(h);
      }
      LogGrows(old(log), e, host);
      NewBranch(host);
    }

    /** The branch for a host: its own, else that of the candidate with the fewest wildcards. */
    method MatchHost(host: string) returns (branch: Option<Node<S>>)
      requires Valid()
      ensures branch == match Select(edges.Keys, host) case None => None case Some(key) => Some(edges[key])
    {
      hide Trie.Branches, Split, Join, Wild, SearchFrom, HostsOf;
      ghost var keys := edges.Keys;
      CandidateNone(host);
      SearchNext(keys, host, 0);
      if host in edges {
        return Some(edges[host]);
      }
      SearchEnds(keys, host);
      var names := Split(host);
      var labels := new string[|names|](i requires 0 <= i < |names| => names[i]);
      assert labels[..] == names;
      for i := 0 to labels.Length
        invariant labels[..] == Wild(names, i)
        invariant Select(keys, host) == SearchFrom(keys, host, i + 1)
      {
        WildNext(host, i, labels[..]);
        labels[i] := "*";
        assert labels[..] == Wild(names, i + 1);
        var candidate := Join(labels[..]);
        SearchNext(keys, host, i + 1);
        if candidate in edges {
          return Some(edges[candidate]);
        }
      }
      return None;
    }

    /**
     Answers a request as the log of insertions says: by the host's branch, else that of the first
     fallback with a branch; and by the longest path in it.
     */
    method Match(key: string) returns (hit: Option<Hit<S>>)
      requires Valid()
      ensures hit == Answer(log, fallbackHosts, HostOf(key), CutKey(key).1)
    {
      hide Trie.Branches, Trie.BranchValid, Node.Valid, Select, HostsOf, ContentOf, Longest;
      var host, path := HostOf(key), CutKey(key).1;
      var branch := MatchHost(host);
      ghost var tried, keys, names := host, edges.Keys, [host] + fallbackHosts;
      assert names[1..] == fallbackHosts;
      for i := 0 to |fallbackHosts|
        invariant branch == match Select(keys, tried) case None => None case Some(key) => Some(edges[key])
        invariant Branch(keys, names) == if branch.Some? then Select(keys, tried) else Branch(keys, fallbackHosts[i..])
      {
        if branch.Some? {
          break;
        }
        tried := fallbackHosts[i];
        assert fallbackHosts[i..][1..] == fallbackHosts[i + 1..];
        branch := MatchHost(fallbackHosts[i]);
      }
      if branch.None? {
        return None;
      }
      ghost var found := Select(keys, tried).value;
      BranchesParts(found);
      hit := branch.value.MatchPath(path);
    }

    lemma {:induction false} BranchesParts(h: string)
      requires h in edges && Branches()
      ensures edges[h].Valid() && edges[h].content == ContentOf(log, h)
    {
    }
  }
}
