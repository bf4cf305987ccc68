/**
 A FastCGI request as a whole (caddyhttp/fastcgi/fcgiclient.go, writePairs and Do): what is written
 and what a reader that follows the FastCGI Specification 1.0 gets out of it.
 */
module FcgiRequest {
  import opened ByteWords
  import opened FcgiRecords
  import opened FcgiPairs
  import opened FcgiWriter
  import opened Sequences
  import opened Wrappers

  // ---------------------------------------------------------------------------------------------
  // Pairs in groups, one group a record
  // ---------------------------------------------------------------------------------------------

  function Flatten<T>(groups: seq<seq<T>>): seq<T> {
    if groups == [] then [] else Flatten(groups[..|groups| - 1]) + groups[|groups| - 1]
  }

  lemma {:induction false} FlattenOne<T>(groups: seq<seq<T>>, g: seq<T>)
    ensures Flatten(groups + [g]) == Flatten(groups) + g
  {
    assert (groups + [g])[..|groups|] == groups;
  }

  /** A group is not empty and its bytes fit a record. */
  ghost predicate FitsRecord(g: seq<Pair>) {
    g != [] && AllShort(g) && |PairsBytes(g)| <= MaxWrite
  }

  /** The next pair would not have fitted the record of the group. */
  ghost predicate NoRoom(g: seq<Pair>, p: Pair)
    requires AllShort(g) && Short(p)
  {
    |PairsBytes(g)| + |PairBytes(p)| > MaxWrite
  }

  /** Groups that are packed full: each fits, and none had room for the first pair of the next. */
  ghost predicate Packed(groups: seq<seq<Pair>>) {
    && (forall i :: 0 <= i < |groups| ==> FitsRecord(groups[i]))
    && (forall i :: 0 < i < |groups| ==> NoRoom(groups[i - 1], groups[i][0]))
  }

  /** The records of some groups. */
  ghost function GroupEntries(kind: byte, groups: seq<seq<Pair>>): (r: seq<Entry>)
    requires Packed(groups)
    ensures |r| == |groups|
  {
    seq(|groups|, i requires 0 <= i < |groups| => Entry(kind, PairsBytes(groups[i])))
  }

  lemma {:induction false} PackedGrows(kind: byte, groups: seq<seq<Pair>>, g: seq<Pair>)
    requires Packed(groups) && FitsRecord(g) && (groups != [] ==> NoRoom(groups[|groups| - 1], g[0]))
    ensures Packed(groups + [g])
    ensures GroupEntries(kind, groups + [g]) == GroupEntries(kind, groups) + [Entry(kind, PairsBytes(g))]
    ensures Flatten(groups + [g]) == Flatten(groups) + g
  {
    hide NoRoom, PairsBytes;
    FlattenOne(groups, g);
  }

  /** How far the pairs have been written: full groups sent, the current one in the buffer. */
  ghost predicate Underway(groups: seq<seq<Pair>>, current: seq<Pair>, done: seq<Pair>, buf: seq<byte>)
    ensures Underway(groups, current, done, buf) ==> Packed(groups)
  {
    && Packed(groups) && AllShort(current) && buf == PairsBytes(current) && |buf| <= MaxWrite
    && Flatten(groups) + current == done
    && (groups != [] ==> current != [] && NoRoom(groups[|groups| - 1], current[0]))
  }

  lemma {:induction false} NothingYet(kind: byte)
    ensures Underway([], [], [], []) && GroupEntries(kind, []) == []
  {
  }

  lemma {:induction false} OneMore(groups: seq<seq<Pair>>, current: seq<Pair>, done: seq<Pair>, buf: seq<byte>, p: Pair)
    requires Underway(groups, current, done, buf) && Short(p) && |buf| + |PairBytes(p)| <= MaxWrite
    ensures Underway(groups, current + [p], done + [p], buf + PairBytes(p))
  {
    hide Packed, NoRoom, PairsBytes, PairBytes, Flatten, Short;
    PairsOne(p);
    AllShortOne(p);
    PairsAppend(current, [p]);
    assert Flatten(groups) + (current + [p]) == Flatten(groups) + current + [p];
  }

  lemma {:induction false} AllShortOne(p: Pair)
    requires Short(p)
    ensures AllShort([p])
  {
  }

  lemma {:induction false} NewGroup(kind: byte, groups: seq<seq<Pair>>, current: seq<Pair>, done: seq<Pair>,
                                    buf: seq<byte>, p: Pair)
    requires Underway(groups, current, done, buf) && Short(p) && |buf| + |PairBytes(p)| > MaxWrite
    requires |PairBytes(p)| <= MaxWrite
    ensures buf != [] && Underway(groups + [current], [p], done + [p], PairBytes(p))
    ensures GroupEntries(kind, groups + [current]) == GroupEntries(kind, groups) + [Entry(kind, buf)]
  {
    hide Packed, PairBytes, Flatten, Short;
    assert PairsBytes([]) == [];
    PairsOne(p);
    AllShortOne(p);
    PackedGrows(kind, groups, current);
    assert (groups + [current])[|groups|] == current;
  }

  /** The whole of some pairs, in groups, once the last record is sent. */
  ghost function Closed(groups: seq<seq<Pair>>, current: seq<Pair>): seq<seq<Pair>> {
    if current == [] then groups else groups + [current]
  }

  lemma {:induction false} AllSent(kind: byte, groups: seq<seq<Pair>>, current: seq<Pair>, done: seq<Pair>,
                                   buf: seq<byte>)
    requires Underway(groups, current, done, buf)
    ensures var all := Closed(groups, current);
            && Packed(all) && Flatten(all) == done
            && GroupEntries(kind, all) == GroupEntries(kind, groups) + if buf == [] then [] else [Entry(kind, buf)]
  {
    hide Packed, Flatten, NoRoom;
    if current == [] {
      assert PairsBytes([]) == [];
    } else {
      NotEmpty(current);
      PackedGrows(kind, groups, current);
    }
  }

  lemma {:induction false} NotEmpty(g: seq<Pair>)
    requires AllShort(g) && g != []
    ensures PairsBytes(g) != []
  {
    hide PairBytes;
  }

  // ---------------------------------------------------------------------------------------------
  // Writing
  // ---------------------------------------------------------------------------------------------

  /** Writes the two lengths of a pair into a buffer. */
  method EncodeSizes(b: array<byte>, name: nat, value: nat) returns (n: nat)
    requires b.Length == 8 && name < TopBit && value < TopBit
    modifies b
    ensures n <= 8 && b[..n] == SizeBytes(name) + SizeBytes(value)
  {
    hide SizeBytes;
    n := EncodeSize(b, 0, name);
    ghost var first := b[..n];
    assert first == SizeBytes(name);
    var m := EncodeSize(b, n, value);
    assert b[..n + m] == b[..n] + b[n..n + m];
    n := n + m;
  }

  /** Puts a pair into the buffer, where there is room for it. */
  method PutPair(w: BufWriter, sizes: seq<byte>, k: seq<byte>, v: seq<byte>)
    requires w.Valid() && |k| < TopBit && |v| < TopBit && sizes == SizeBytes(|k|) + SizeBytes(|v|)
    requires |w.buf| + |PairBytes(Pair(k, v))| <= MaxWrite
    modifies w, w.stream.client
    ensures w.Valid() && w.stream.client.log == old(w.stream.client.log)
    ensures w.buf == old(w.buf) + PairBytes(Pair(k, v))
  {
    hide SizeBytes, Client.Valid, Pieces;
    var _ := w.Write(sizes);
    var _ := w.WriteString(k);
    var _ := w.WriteString(v);
    ghost var before := old(w.buf);
    assert before + sizes + k + v == before + (sizes + k + v);
  }

  /** Writes one pair: into the record of the pairs before it if there is room, else into the next. */
  method WritePair(w: BufWriter, b: array<byte>, nn: nat, p: Pair, ghost base: seq<Entry>,
                   ghost groups: seq<seq<Pair>>, ghost current: seq<Pair>, ghost done: seq<Pair>)
    returns (panicked: bool, nn': nat, ghost groups': seq<seq<Pair>>, ghost current': seq<Pair>)
    requires w.Valid() && b.Length == 8 && nn == |w.buf| && Underway(groups, current, done, w.buf)
    requires w.stream.client.log == base + GroupEntries(w.stream.kind, groups)
    modifies w, w.stream.client, b
    ensures w.Valid() && Packed(groups') && w.stream.client.log == base + GroupEntries(w.stream.kind, groups')
    ensures panicked <==> |p.name| > MaxWrite - 8
    ensures panicked ==> groups' == groups
    ensures !panicked ==> nn' == |w.buf| && Underway(groups', current', done + [Cut(p)], w.buf)
  {
    hide Client.Valid, Underway, Packed, GroupEntries, PairBytes, SizeBytes;
    panicked, nn', groups', current' := false, nn, groups, current;
    var k, v := p.name, p.value;
    var m := 8 + |k| + |v|;
    if m > MaxWrite {
      var vl := MaxWrite - 8 - |k|;
      if vl < 0 {
        return true, nn, groups, current;
      }
      v := v[..vl];
    }
    assert Cut(p) == Pair(k, v);
    var n := EncodeSizes(b, |k|, |v|);
    m := n + |k| + |v|;
    PairLength(Pair(k, v), b[..n]);
    if nn + m > MaxWrite {
      NewGroup(w.stream.kind, groups, current, done, w.buf, Pair(k, v));
      groups', current' := groups + [current], [Pair(k, v)];
      assert base + GroupEntries(w.stream.kind, groups) + [Entry(w.stream.kind, w.buf)] ==
             base + GroupEntries(w.stream.kind, groups');
      w.Flush();
      nn' := 0;
    } else {
      OneMore(groups, current, done, w.buf, Pair(k, v));
      current' := current + [Pair(k, v)];
    }
    nn' := nn' + m;
    PutPair(w, b[..n], k, v);
    assert [] + PairBytes(Pair(k, v)) == PairBytes(Pair(k, v));
  }

  lemma {:induction false} PairLength(p: Pair, sizes: seq<byte>)
    requires Short(p) && sizes == SizeBytes(|p.name|) + SizeBytes(|p.value|)
    ensures |PairBytes(p)| == |sizes| + |p.name| + |p.value|
  {
  }

  /** How many pairs can be sent before one cannot. */
  ghost function Ready(pairs: seq<Pair>): (n: nat)
    ensures n <= |pairs| && Sendable(pairs[..n]) && (n < |pairs| ==> |pairs[n].name| > MaxWrite - 8)
  {
    if pairs == [] || |pairs[0].name| > MaxWrite - 8 then 0
    else
      var n := 1 + Ready(pairs[1..]);
      assert forall i :: 0 < i < n ==> pairs[..n][i] == pairs[1..][..n - 1][i - 1];
      n
  }

  lemma {:induction false} ReadyIs(pairs: seq<Pair>, i: nat)
    requires i < |pairs| && Sendable(pairs[..i]) && |pairs[i].name| > MaxWrite - 8
    ensures Ready(pairs) == i
  {
    if i > 0 {
      assert pairs[..i][0] == pairs[0];
      assert pairs[1..][..i - 1] == pairs[..i][1..];
      ReadyIs(pairs[1..], i - 1);
    }
  }

  lemma {:induction false} SentBefore(groups: seq<seq<Pair>>, current: seq<Pair>, done: seq<Pair>, buf: seq<byte>)
    requires Underway(groups, current, done, buf)
    ensures Flatten(groups) <= done
  {
    hide Packed, PairsBytes, Flatten;
  }

  lemma {:induction false} NonePrefix(pairs: seq<Pair>)
    ensures Sendable(pairs[..0]) && CutAll(pairs[..0]) == []
  {
  }

  lemma {:induction false} PrefixGrows(pairs: seq<Pair>, i: nat)
    requires i < |pairs| && Sendable(pairs[..i])
    ensures |pairs[i].name| <= MaxWrite - 8 ==>
              Sendable(pairs[..i + 1]) && CutAll(pairs[..i + 1]) == CutAll(pairs[..i]) + [Cut(pairs[i])]
    ensures |pairs[i].name| > MaxWrite - 8 ==> !Sendable(pairs)
  {
    hide Cut;
    assert forall j :: 0 <= j < i ==> pairs[..i + 1][j] == pairs[..i][j];
  }

  /**
   Writes pairs as a stream of records. A name too long to be sent stops it (the slice bounds panic)
   with some of the pairs before it sent, in order, and no end of the stream. Otherwise the stream
   is the pairs, values cut to fit, in packed groups, one record a group, and one empty record.
   */
  method WritePairs(client: Client, recType: byte, pairs: seq<Pair>)
    returns (panicked: bool, ghost groups: seq<seq<Pair>>)
    requires client.Valid()
    modifies client
    ensures client.Valid()
    ensures panicked <==> !Sendable(pairs)
    ensures Packed(groups)
    ensures panicked ==>
              && Flatten(groups) <= CutAll(pairs[..Ready(pairs)])
              && client.log == old(client.log) + GroupEntries(recType, groups)
    ensures !panicked ==>
              && Flatten(groups) == CutAll(pairs)
              && client.log == old(client.log) + GroupEntries(recType, groups) + [Entry(recType, [])]
  {
    hide Client.Valid, Underway, Packed, GroupEntries, Sendable, CutAll, Flatten, Closed;
    var w := new BufWriter(client, recType);
    var b := new byte[8];
    var nn := 0;
    groups := [];
    ghost var current: seq<Pair> := [];
    NothingYet(recType);
    NonePrefix(pairs);
    for i := 0 to |pairs|
      invariant w.Valid() && w.stream.client == client && w.stream.kind == recType && nn == |w.buf|
      invariant fresh(w) && fresh(b) && b.Length == 8
      invariant Sendable(pairs[..i]) && Underway(groups, current, CutAll(pairs[..i]), w.buf)
      invariant client.log == old(client.log) + GroupEntries(recType, groups)
    {
      PrefixGrows(pairs, i);
      SentBefore(groups, current, CutAll(pairs[..i]), w.buf);
      ghost var before := groups;
      panicked, nn, groups, current :=
        WritePair(w, b, nn, pairs[i], old(client.log), groups, current, CutAll(pairs[..i]));
      if panicked {
        ReadyIs(pairs, i);
        return true, before;
      }
    }
    assert pairs[..|pairs|] == pairs;
    AllSent(recType, groups, current, CutAll(pairs), w.buf);
    w.Close();
    panicked, groups := false, Closed(groups, current);
  }

  // ---------------------------------------------------------------------------------------------
  // What arrives
  // ---------------------------------------------------------------------------------------------

  /** All records of some bytes, to the first that cannot be read. */
  function ParseAll(b: seq<byte>): seq<Entry>
    decreases |b|
  {
    match ParseRecord(b)
    case Got(kind, content, rest) => [Entry(kind, content)] + ParseAll(rest)
    case Failed(_, _) => []
  }

  /** Records that can be read back: none ends the request, all lengths fit. */
  ghost predicate Readable(log: seq<Entry>) {
    forall i :: 0 <= i < |log| ==> log[i].kind != EndRequest && |log[i].content| < 0x1_0000
  }

  /** Every record that was written reads back, whatever follows. */
  lemma {:induction false} LogReadsBack(id: nat, log: seq<Entry>, rest: seq<byte>)
    requires id < 0x1_0000 && Readable(log)
    ensures ParseAll(LogBytes(id, log) + rest) == log + ParseAll(rest)
  {
    hide ParseRecord, RecordBytes;
    if log == [] {
      assert LogBytes(id, log) + rest == rest;
    } else {
      var before, last := log[..|log| - 1], log[|log| - 1];
      var record := RecordBytes(last.kind, id, last.content);
      assert LogBytes(id, log) + rest == LogBytes(id, before) + (record + rest);
      LogReadsBack(id, before, record + rest);
      WrittenReadsBack(last.kind, id, last.content, rest);
      assert log == before + [last];
      assert before + ([last] + ParseAll(rest)) == before + [last] + ParseAll(rest);
    }
  }

  lemma {:induction false} GroupsContents(kind: byte, groups: seq<seq<Pair>>)
    requires Packed(groups)
    ensures AllShort(Flatten(groups)) && Contents(GroupEntries(kind, groups)) == PairsBytes(Flatten(groups))
  {
    hide PairsBytes, NoRoom;
    if groups == [] {
      assert Flatten(groups) == [] && PairsOfNone() == [];
    } else {
      var before, last := groups[..|groups| - 1], groups[|groups| - 1];
      assert groups == before + [last];
      GroupsContents(kind, before);
      PairsAppend(Flatten(before), last);
      assert GroupEntries(kind, groups)[..|before|] == GroupEntries(kind, before);
    }
  }

  ghost function PairsOfNone(): (r: seq<byte>)
    ensures r == [] && r == PairsBytes([])
  {
    PairsBytes([])
  }

  /**
   The parameters arrive: the bytes of a packed stream read back as its records, no record but the
   last is empty, each holds whole pairs, and the pairs of all of them together are those sent.
   */
  lemma {:induction false} PairsArrive(id: nat, kind: byte, pairs: seq<Pair>, groups: seq<seq<Pair>>, rest: seq<byte>)
    requires id < 0x1_0000 && kind != EndRequest && Sendable(pairs) && Packed(groups) &&
             Flatten(groups) == CutAll(pairs)
    ensures var sent := GroupEntries(kind, groups) + [Entry(kind, [])];
            && ParseAll(LogBytes(id, sent) + rest) == sent + ParseAll(rest)
            && ParsePairs(Contents(sent)) == Some(CutAll(pairs))
    ensures Pieces(kind, GroupEntries(kind, groups))
    ensures forall i :: 0 <= i < |groups| ==>
              ParsePairs(GroupEntries(kind, groups)[i].content) == Some(groups[i]) && groups[i] != []
  {
    hide LogBytes, ParseAll, PairsBytes, ParsePairs, Flatten, CutAll, NoRoom, Contents;
    var entries := GroupEntries(kind, groups);
    var sent := entries + [Entry(kind, [])];
    forall i | 0 <= i < |groups|
      ensures ParsePairs(entries[i].content) == Some(groups[i]) && 0 < |entries[i].content| <= MaxWrite
    {
      PairsReadBack(groups[i]);
      NotEmpty(groups[i]);
    }
    LogReadsBack(id, sent, rest);
    GroupsContents(kind, groups);
    LogGrows(0, entries, Entry(kind, []));
    assert Contents(sent) == PairsBytes(Flatten(groups));
    PairsReadBack(CutAll(pairs));
  }

  // ---------------------------------------------------------------------------------------------
  // A whole request
  // ---------------------------------------------------------------------------------------------

  const Responder: nat := 1

  /** The content of the record that begins a request: the role, high byte first, flags and five reserved bytes. */
  function BeginBody(role: nat, flags: byte): (r: seq<byte>)
    requires role < 0x1_0000
    ensures |r| == 8 && 256 * (r[0] as int) + r[1] == role && r[2] == flags && forall i :: 3 <= i < 8 ==> r[i] == 0
  {
    [role / 256, role % 256, flags, 0, 0, 0, 0, 0]
  }

  /**
   Writes a request: the beginning, the parameters, and the body piece by piece as it is read. The
   body's records hold exactly its bytes. Parameters that cannot be sent leave the request unfinished.
   */
  method Do(client: Client, pairs: seq<Pair>, body: seq<seq<byte>>)
    returns (panicked: bool, ghost groups: seq<seq<Pair>>, ghost pieces: seq<Entry>)
    requires client.Valid()
    modifies client
    ensures client.Valid() && Packed(groups) && (panicked <==> !Sendable(pairs))
    ensures panicked ==>
              && Flatten(groups) <= CutAll(pairs[..Ready(pairs)])
              && client.log == old(client.log) + [Entry(BeginRequest, BeginBody(Responder, 0))] +
                 GroupEntries(Params, groups)
    ensures !panicked ==>
              && Flatten(groups) == CutAll(pairs)
              && Pieces(Stdin, pieces) && Contents(pieces) == Flatten(body)
              && client.log == old(client.log) + [Entry(BeginRequest, BeginBody(Responder, 0))]
                               + GroupEntries(Params, groups) + [Entry(Params, [])]
                               + pieces + [Entry(Stdin, [])]
  {
    hide Client.Valid, Packed, GroupEntries, Sendable, CutAll, Flatten, Contents, Pieces, RecordBytes;
    client.WriteRecord(BeginRequest, BeginBody(Responder, 0));
    panicked, groups := WritePairs(client, Params, pairs);
    pieces := [];
    if panicked {
      return;
    }
    ghost var before := client.log;
    pieces := WriteBody(client, body);
    assert before + (pieces + [Entry(Stdin, [])]) == before + pieces + [Entry(Stdin, [])];
  }

  method WriteBody(client: Client, body: seq<seq<byte>>) returns (ghost pieces: seq<Entry>)
    requires client.Valid()
    modifies client
    ensures client.Valid() && client.log == old(client.log) + (pieces + [Entry(Stdin, [])])
    ensures Pieces(Stdin, pieces) && Contents(pieces) == Flatten(body)
  {
    hide Client.Valid, Flatten, Contents, Pieces;
    var w := new BufWriter(client, Stdin);
    pieces := [];
    NoPieces(Stdin);
    FlattenNone(body);
    for i := 0 to |body|
      invariant w.Valid() && w.stream.client == client && w.stream.kind == Stdin && fresh(w)
      invariant client.log == old(client.log) + pieces && Pieces(Stdin, pieces)
      invariant Contents(pieces) + w.buf == Flatten(body[..i])
    {
      ghost var buf := w.buf;
      ghost var added := w.Write(body[i]);
      PieceWritten(body, i, pieces, buf, added, w.buf);
      ConcatAssociates(old(client.log), pieces, added);
      pieces := pieces + added;
    }
    assert body[..|body|] == body;
    pieces := EndBody(w, pieces, old(client.log), Flatten(body));
  }

  lemma {:induction false} PieceWritten(body: seq<seq<byte>>, i: nat, pieces: seq<Entry>, buf: seq<byte>,
                                        added: seq<Entry>, buf': seq<byte>)
    requires i < |body| && Pieces(Stdin, pieces) && Pieces(Stdin, added)
    requires Contents(pieces) + buf == Flatten(body[..i]) && Contents(added) + buf' == buf + body[i]
    ensures Pieces(Stdin, pieces + added) && Contents(pieces + added) + buf' == Flatten(body[..i + 1])
  {
    hide Flatten, Contents, Pieces;
    PiecesAppend(Stdin, pieces, added);
    FlattenOne(body[..i], body[i]);
    assert body[..i + 1] == body[..i] + [body[i]];
    ConcatAssociates(Contents(pieces), Contents(added), buf');
    ConcatAssociates(Contents(pieces), buf, body[i]);
  }

  /** Sends what is left of the body and ends the stream. */
  method EndBody(w: BufWriter, ghost pieces: seq<Entry>, ghost base: seq<Entry>, ghost all: seq<byte>)
    returns (ghost pieces': seq<Entry>)
    requires w.Valid() && w.stream.kind == Stdin && Pieces(Stdin, pieces)
    requires w.stream.client.log == base + pieces && Contents(pieces) + w.buf == all
    modifies w, w.stream.client
    ensures w.Valid() && w.stream.client.log == base + (pieces' + [Entry(Stdin, [])])
    ensures Pieces(Stdin, pieces') && Contents(pieces') == all
  {
    hide Client.Valid, Contents, Pieces;
    ghost var last := if w.buf == [] then [] else [Entry(Stdin, w.buf)];
    pieces' := pieces + last;
    if w.buf == [] {
      assert pieces' == pieces && Contents(pieces) + [] == Contents(pieces);
    } else {
      PieceAdded(Stdin, pieces, w.buf);
    }
    ConcatAssociates(base, pieces, last);
    ConcatAssociates(base, pieces', [Entry(Stdin, [])]);
    w.Close();
  }

  lemma {:induction false} FlattenNone(body: seq<seq<byte>>)
    ensures Flatten(body[..0]) == []
  {
  }
}
