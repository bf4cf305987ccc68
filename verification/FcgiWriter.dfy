/**
 Writing a FastCGI request (caddyhttp/fastcgi/fcgiclient.go): records over a connection, streams cut
 into records (sections 5.2 and 5.3 of the FastCGI Specification 1.0), and parameters packed into
 records pair by pair. Writes to the connection succeed.
 */
module FcgiWriter {
  import opened ByteWords
  import opened FcgiRecords
  import opened Sequences

  /** A record that was written, without its framing. */
  datatype Entry = Entry(kind: byte, content: seq<byte>)

  /** The bytes of some records in a row. */
  function LogBytes(id: nat, log: seq<Entry>): seq<byte>
    requires id < 0x1_0000
  {
    if log == [] then []
    else LogBytes(id, log[..|log| - 1]) + RecordBytes(log[|log| - 1].kind, id, log[|log| - 1].content)
  }

  function Contents(log: seq<Entry>): seq<byte> {
    if log == [] then [] else Contents(log[..|log| - 1]) + log[|log| - 1].content
  }

  /** A stream's records so far: of one kind, none empty, none over the limit. */
  ghost predicate Pieces(kind: byte, log: seq<Entry>) {
    forall i :: 0 <= i < |log| ==> log[i].kind == kind && 0 < |log[i].content| <= MaxWrite
  }

  lemma {:induction false} LogGrows(id: nat, log: seq<Entry>, e: Entry)
    requires id < 0x1_0000
    ensures LogBytes(id, log + [e]) == LogBytes(id, log) + RecordBytes(e.kind, id, e.content)
    ensures Contents(log + [e]) == Contents(log) + e.content
  {
    assert (log + [e])[..|log|] == log;
  }

  lemma {:induction false} RecordIs(kind: byte, id: nat, content: seq<byte>, buf: seq<byte>)
    requires id < 0x1_0000
    requires buf == [] + HeaderBytes(HeaderFor(kind, id, |content|)) + content +
             Zeros(HeaderFor(kind, id, |content|).paddingLength)
    ensures buf == RecordBytes(kind, id, content)
  {
    hide HeaderBytes, HeaderFor, Zeros;
    assert [] + HeaderBytes(HeaderFor(kind, id, |content|)) == HeaderBytes(HeaderFor(kind, id, |content|));
  }

  /** Some bytes move from what is left to what is done. */
  lemma {:induction false} MoveOver(done: seq<byte>, rest: seq<byte>, n: nat)
    requires n <= |rest|
    ensures done + rest == done + rest[..n] + rest[n..]
  {
    assert rest == rest[..n] + rest[n..];
  }

  lemma {:induction false} PieceAdded(kind: byte, log: seq<Entry>, content: seq<byte>)
    requires Pieces(kind, log) && 0 < |content| <= MaxWrite
    ensures Pieces(kind, log + [Entry(kind, content)])
    ensures Contents(log + [Entry(kind, content)]) == Contents(log) + content
  {
    LogGrows(0, log, Entry(kind, content));
  }

  class Client {
    const reqID: nat

    var h: Header
    var buf: seq<byte>

    /** What the connection has been sent, and the records it is made of. */
    var out: seq<byte>
    ghost var log: seq<Entry>

    ghost predicate Valid()
      reads this
    {
      reqID < 0x1_0000 && out == LogBytes(reqID, log)
    }

    constructor (reqID: nat)
      requires reqID < 0x1_0000
      ensures Valid() && log == [] && this.reqID == reqID
    {
      this.reqID := reqID;
      h, buf, out, log := Header(0, 0, 0, 0, 0, 0), [], [], [];
    }

    /** Writes one record: exactly its header, its content and its padding. */
    method WriteRecord(recType: byte, content: seq<byte>)
      requires Valid()
      modifies this
      ensures Valid() && log == old(log) + [Entry(recType, content)]
      ensures out == old(out) + RecordBytes(recType, reqID, content)
    {
      hide LogBytes, RecordBytes, HeaderBytes, HeaderFor, Zeros;
      LogGrows(reqID, log, Entry(recType, content));
      buf := [];
      h := HeaderFor(recType, reqID, |content|);
      buf := buf + HeaderBytes(h);
      buf := buf + content;
      buf := buf + Zeros(h.paddingLength);
      RecordIs(recType, reqID, content, buf);
      out := out + buf;
      log := log + [Entry(recType, content)];
    }
  }

  class StreamWriter {
    const client: Client
    const kind: byte

    constructor (client: Client, kind: byte)
      ensures this.client == client && this.kind == kind
    {
      this.client, this.kind := client, kind;
    }

    /** Cuts what it is given into records; they hold it all, none is empty and all but the last are full. */
    method Write(p: seq<byte>) returns (ghost added: seq<Entry>)
      requires client.Valid()
      modifies client
      ensures client.Valid() && client.log == old(client.log) + added
      ensures Pieces(kind, added) && Contents(added) == p
      ensures forall i :: 0 <= i < |added| - 1 ==> |added[i].content| == MaxWrite
      ensures 0 < |p| <= MaxWrite ==> added == [Entry(kind, p)]
    {
      hide Client.Valid, Contents, RecordBytes, Pieces;
      var rest := p;
      added := [];
      NoPieces(kind);
      while |rest| > 0
        invariant client.Valid() && client.log == old(client.log) + added
        invariant Pieces(kind, added) && Contents(added) + rest == p
        invariant forall i :: 0 <= i < |added| ==> |added[i].content| == MaxWrite || (i == |added| - 1 && rest == [])
        invariant |p| <= MaxWrite ==> if added == [] then rest == p else added == [Entry(kind, p)] && rest == []
      {
        var n := if |rest| > MaxWrite then MaxWrite else |rest|;
        var piece := rest[..n];
        client.WriteRecord(kind, piece);
        PieceAdded(kind, added, piece);
        MoveOver(Contents(added), rest, n);
        assert n == |rest| ==> piece == rest;
        assert old(client.log) + added + [Entry(kind, piece)] == old(client.log) + (added + [Entry(kind, piece)]);
        added := added + [Entry(kind, piece)];
        rest := rest[n..];
      }
      assert Contents(added) + rest == Contents(added);
    }

    /** Ends the stream with an empty record. */
    method Close()
      requires client.Valid()
      modifies client
      ensures client.Valid() && client.log == old(client.log) + [Entry(kind, [])]
    {
      client.WriteRecord(kind, []);
    }
  }

  lemma {:induction false} NoPieces(kind: byte)
    ensures Pieces(kind, []) && Contents([]) == []
  {
  }

  lemma {:induction false} PiecesAppend(kind: byte, a: seq<Entry>, b: seq<Entry>)
    requires Pieces(kind, a) && Pieces(kind, b)
    ensures Pieces(kind, a + b) && Contents(a + b) == Contents(a) + Contents(b)
  {
    ContentsAppend(a, b);
  }

  lemma {:induction false} ContentsAppend(a: seq<Entry>, b: seq<Entry>)
    ensures Contents(a + b) == Contents(a) + Contents(b)
  {
    if b == [] {
      assert a + b == a;
    } else {
      ContentsAppend(a, b[..|b| - 1]);
      LastOfConcat(a, b);
      ConcatAssociates(Contents(a), Contents(b[..|b| - 1]), b[|b| - 1].content);
    }
  }

  lemma {:induction false} Refill(done: seq<byte>, buf: seq<byte>, rest: seq<byte>, n: nat)
    requires n <= |rest|
    ensures done + (buf + rest) == done + (buf + rest[..n]) + ([] + rest[n..])
  {
    assert rest == rest[..n] + rest[n..];
  }

  /** A buffer of the size of the largest record in front of a stream. */
  class BufWriter {
    const stream: StreamWriter
    var buf: seq<byte>

    ghost predicate Valid()
      reads this, stream, stream.client
    {
      stream.client.Valid() && |buf| <= MaxWrite
    }

    constructor (client: Client, kind: byte)
      requires client.Valid()
      ensures Valid() && buf == [] && fresh(stream) && stream.client == client && stream.kind == kind
    {
      stream := new StreamWriter(client, kind);
      buf := [];
    }

    /** Sends what is in the buffer as one record; an empty buffer sends nothing. */
    method Flush()
      requires Valid()
      modifies this, stream.client
      ensures Valid() && buf == []
      ensures stream.client.log ==
              old(stream.client.log) + if old(buf) == [] then [] else [Entry(stream.kind, old(buf))]
    {
      if buf == [] {
        return;
      }
      var _ := stream.Write(buf);
      buf := [];
    }

    /** Adds bytes; they stay in the buffer if they fit, and in any case none is lost or moved. */
    method Write(p: seq<byte>) returns (ghost added: seq<Entry>)
      requires Valid()
      modifies this, stream.client
      ensures Valid() && stream.client.log == old(stream.client.log) + added
      ensures Pieces(stream.kind, added) && Contents(added) + buf == old(buf) + p
      ensures forall i :: 0 <= i < |added| - 1 ==> |added[i].content| == MaxWrite
      ensures |old(buf)| + |p| <= MaxWrite ==> added == [] && buf == old(buf) + p
    {
      hide Client.Valid, Contents, RecordBytes, Pieces;
      var rest := p;
      added := [];
      NoPieces(stream.kind);
      while |rest| > MaxWrite - |buf|
        invariant Valid() && stream.client.log == old(stream.client.log) + added
        invariant Pieces(stream.kind, added) && Contents(added) + (buf + rest) == old(buf) + p
        invariant |old(buf)| + |p| <= MaxWrite ==> rest == p && buf == old(buf) && added == []
        invariant forall i :: 0 <= i < |added| ==>
                    |added[i].content| == MaxWrite || (i == |added| - 1 && buf + rest == [])
        decreases |rest|, |buf|
      {
        if buf == [] {
          ghost var sent := stream.Write(rest);
          PiecesAppend(stream.kind, added, sent);
          assert Contents(added) + (buf + rest) == Contents(added + sent) + (buf + []);
          assert old(stream.client.log) + added + sent == old(stream.client.log) + (added + sent);
          added := added + sent;
          rest := [];
        } else {
          var n := MaxWrite - |buf|;
          PieceAdded(stream.kind, added, buf + rest[..n]);
          Refill(Contents(added), buf, rest, n);
          buf := buf + rest[..n];
          rest := rest[n..];
          ghost var sent := [Entry(stream.kind, buf)];
          assert old(stream.client.log) + added + sent == old(stream.client.log) + (added + sent);
          added := added + sent;
          Flush();
        }
      }
      buf := buf + rest;
    }

    /** Adds the bytes of a string, always by way of the buffer. */
    method WriteString(s: seq<byte>) returns (ghost added: seq<Entry>)
      requires Valid()
      modifies this, stream.client
      ensures Valid() && stream.client.log == old(stream.client.log) + added
      ensures Pieces(stream.kind, added) && Contents(added) + buf == old(buf) + s
      ensures forall i :: 0 <= i < |added| ==> |added[i].content| == MaxWrite
      ensures |old(buf)| + |s| <= MaxWrite ==> added == [] && buf == old(buf) + s
    {
      hide Client.Valid, Contents, RecordBytes, Pieces;
      var rest := s;
      added := [];
      NoPieces(stream.kind);
      while |rest| > MaxWrite - |buf|
        invariant Valid() && stream.client.log == old(stream.client.log) + added
        invariant Pieces(stream.kind, added) && Contents(added) + (buf + rest) == old(buf) + s
        invariant |old(buf)| + |s| <= MaxWrite ==> rest == s && buf == old(buf) && added == []
        invariant forall i :: 0 <= i < |added| ==> |added[i].content| == MaxWrite
        decreases |rest|, |buf|
      {
        var n := MaxWrite - |buf|;
        PieceAdded(stream.kind, added, buf + rest[..n]);
        Refill(Contents(added), buf, rest, n);
        buf := buf + rest[..n];
        rest := rest[n..];
        ghost var sent := [Entry(stream.kind, buf)];
        assert old(stream.client.log) + added + sent == old(stream.client.log) + (added + sent);
        added := added + sent;
        Flush();
      }
      buf := buf + rest;
    }

    /** Sends what is left and ends the stream. */
    method Close()
      requires Valid()
      modifies this, stream.client
      ensures Valid() && buf == []
      ensures stream.client.log == old(stream.client.log) +
              (if old(buf) == [] then [] else [Entry(stream.kind, old(buf))]) + [Entry(stream.kind, [])]
    {
      Flush();
      stream.Close();
    }
  }
}
