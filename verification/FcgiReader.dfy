/**
 Reading a FastCGI response (caddyhttp/fastcgi/fcgiclient.go, record.read and streamReader): the
 standard error of the responder is taken out of the stream of records, the rest is delivered.
 */
module FcgiReader {
  import opened ByteWords
  import opened FcgiRecords
  import opened FcgiWriter
  import opened FcgiRequest
  import opened Wrappers

  /** A connection as far as reading goes: what is still to come from it. */
  class Conn {
    var input: seq<byte>

    constructor (input: seq<byte>)
      ensures this.input == input
    {
      this.input := input;
    }

    /** Reads exactly n bytes; fails with what there was, all of it consumed. */
    method ReadFull(n: nat) returns (b: seq<byte>, err: Option<Error>)
      modifies this
      ensures n <= |old(input)| ==> err == None && b == old(input)[..n] && input == old(input)[n..]
      ensures n > |old(input)| ==>
                input == [] && b == old(input) && err == Some(if b == [] then EndOfFile else ShortRead)
    {
      if n <= |input| {
        b, err, input := input[..n], None, input[n..];
      } else {
        b, err, input := input, Some(if input == [] then EndOfFile else ShortRead), [];
      }
    }
  }

  class Record {
    var h: Header
    var rbuf: seq<byte>

    constructor ()
    {
      h, rbuf := Header(0, 0, 0, 0, 0, 0), [];
    }

    /** Reads the next record of a connection. */
    method Read(r: Conn) returns (buf: seq<byte>, err: Option<Error>)
      modifies this, r
      ensures match ParseRecord(old(r.input))
              case Got(kind, content, rest) => err == None && h.kind == kind && buf == content && r.input == rest
              case Failed(e, left) => err == Some(e) && buf == [] && r.input == left
    {
      buf := [];
      ghost var input := r.input;
      var head: seq<byte>;
      head, err := r.ReadFull(HeaderLen);
      if err.Some? {
        return;
      }
      h := ParseHeader(head);
      assert h == ParseHeader(input);
      if h.version != 1 {
        return [], Some(BadVersion);
      }
      if h.kind == EndRequest {
        return [], Some(EndOfFile);
      }
      var n := h.contentLength + h.paddingLength;
      rbuf, err := r.ReadFull(n);
      if err.Some? {
        return;
      }
      assert rbuf[..h.contentLength] == input[HeaderLen..][..h.contentLength];
      buf := rbuf[..h.contentLength];
    }
  }

  // ---------------------------------------------------------------------------------------------
  // What is to be delivered
  // ---------------------------------------------------------------------------------------------

  /** The contents of the records that are standard error, or of those that are not. */
  function Select(log: seq<Entry>, stderr: bool): seq<byte> {
    if log == [] then []
    else (if (log[0].kind == Stderr) == stderr then log[0].content else []) + Select(log[1..], stderr)
  }

  function Data(b: seq<byte>): seq<byte> { Select(ParseAll(b), false) }

  function Errors(b: seq<byte>): seq<byte> { Select(ParseAll(b), true) }

  lemma {:induction false} NextRecord(b: seq<byte>)
    ensures match ParseRecord(b)
            case Got(kind, content, rest) =>
              if kind == Stderr then Data(b) == Data(rest) && Errors(b) == content + Errors(rest)
              else Data(b) == content + Data(rest) && Errors(b) == Errors(rest)
            case Failed(_, _) => Data(b) == [] && Errors(b) == []
  {
    hide ParseRecord;
    match ParseRecord(b)
    case Got(kind, content, rest) =>
      var log := [Entry(kind, content)] + ParseAll(rest);
      assert log[1..] == ParseAll(rest);
      assert [] + Select(ParseAll(rest), kind != Stderr) == Select(ParseAll(rest), kind != Stderr);
    case Failed(_, _) =>
  }

  class StreamReader {
    const rwc: Conn
    var stderr: seq<byte>
    var buf: seq<byte>

    constructor (rwc: Conn)
      ensures this.rwc == rwc && stderr == [] && buf == []
    {
      this.rwc := rwc;
      stderr, buf := [], [];
    }

    /** Reads on to the next record that is not standard error. */
    method Fill() returns (err: Option<Error>)
      requires buf == []
      modifies this, rwc
      ensures err == None ==>
                && buf + Data(rwc.input) == old(Data(rwc.input))
                && stderr + Errors(rwc.input) == old(stderr + Errors(rwc.input))
      ensures err.Some? ==> buf == [] && old(Data(rwc.input)) == [] && stderr == old(stderr + Errors(rwc.input))
    {
      hide ParseRecord, Data, Errors;
      while true
        invariant buf == []
        invariant stderr + Errors(rwc.input) == old(stderr + Errors(rwc.input))
        invariant Data(rwc.input) == old(Data(rwc.input))
        decreases |rwc.input|
      {
        var rec := new Record();
        NextRecord(rwc.input);
        ghost var before := rwc.input;
        var content: seq<byte>;
        content, err := rec.Read(rwc);
        if err.Some? {
          assert stderr + [] == stderr;
          return;
        }
        if rec.h.kind == Stderr {
          assert stderr + (content + Errors(rwc.input)) == stderr + content + Errors(rwc.input);
          stderr := stderr + content;
          continue;
        }
        buf := content;
        return;
      }
    }

    /**
     Reads up to as many bytes as fit. Nothing is lost, doubled or reordered: what is delivered,
     what is buffered and what is still to be read make up what was to come. An error means that
     everything was delivered and every byte of standard error collected.
     */
    method Read(p: array<byte>) returns (n: nat, err: Option<Error>)
      modifies this, rwc, p
      ensures n <= p.Length && p[n..] == old(p[n..])
      ensures err == None ==>
                && p[..n] + buf + Data(rwc.input) == old(buf + Data(rwc.input))
                && stderr + Errors(rwc.input) == old(stderr + Errors(rwc.input))
      ensures err.Some? ==>
                && n == 0 && buf == [] && old(buf + Data(rwc.input)) == []
                && stderr == old(stderr + Errors(rwc.input))
      ensures p.Length == 0 ==> err == None && unchanged(this) && unchanged(rwc)
      ensures old(buf) != [] ==> err == None && unchanged(rwc) && (n == |old(buf)| || n == p.Length)
    {
      hide ParseRecord, Data, Errors;
      n, err := 0, None;
      if p.Length > 0 {
        if buf == [] {
          err := Fill();
          if err.Some? {
            return;
          }
        }
        n := if p.Length > |buf| then |buf| else p.Length;
        Copy(p, n);
        assert buf == buf[..n] + buf[n..];
        ghost var rest := Data(rwc.input);
        assert buf[..n] + buf[n..] + rest == buf + rest;
        buf := buf[n..];
      }
    }

    method Copy(p: array<byte>, n: nat)
      requires n <= p.Length && n <= |buf|
      modifies p
      ensures p[..n] == buf[..n] && p[n..] == old(p[n..])
    {
      forall i | 0 <= i < n {
        p[i] := buf[i];
      }
    }
  }

  /** Any reads in a row, of any sizes, up to the first error. */
  method ReadMany(r: StreamReader, sizes: seq<nat>) returns (delivered: seq<byte>, err: Option<Error>)
    modifies r, r.rwc
    ensures err == None ==>
              && delivered + (r.buf + Data(r.rwc.input)) == old(r.buf + Data(r.rwc.input))
              && r.stderr + Errors(r.rwc.input) == old(r.stderr + Errors(r.rwc.input))
    ensures err.Some? ==>
              && delivered == old(r.buf + Data(r.rwc.input))
              && r.stderr == old(r.stderr + Errors(r.rwc.input))
  {
    hide Data, Errors;
    delivered, err := [], None;
    for i := 0 to |sizes|
      invariant err == None
      invariant delivered + (r.buf + Data(r.rwc.input)) == old(r.buf + Data(r.rwc.input))
      invariant r.stderr + Errors(r.rwc.input) == old(r.stderr + Errors(r.rwc.input))
    {
      var p := new byte[sizes[i]](_ => 0);
      var n;
      ghost var buffered, data := r.buf, Data(r.rwc.input);
      n, err := r.Read(p);
      if err.Some? {
        assert delivered + (buffered + data) == delivered;
        return;
      }
      ghost var left := Data(r.rwc.input);
      assert delivered + (p[..n] + r.buf + left) == delivered + p[..n] + (r.buf + left);
      delivered := delivered + p[..n];
    }
  }

  // ---------------------------------------------------------------------------------------------
  // A well-formed response
  // ---------------------------------------------------------------------------------------------

  /** Records of a response: none of them ends it. */
  ghost predicate Response(rs: seq<FcgiRecords.Record>) {
    forall i :: 0 <= i < |rs| ==> Sound(rs[i]) && rs[i].kind != EndRequest
  }

  function ResponseBytes(rs: seq<FcgiRecords.Record>): seq<byte>
    requires Response(rs)
  {
    if rs == [] then [] else Bytes(rs[0]) + ResponseBytes(rs[1..])
  }

  function Entries(rs: seq<FcgiRecords.Record>): seq<Entry> {
    seq(|rs|, i requires 0 <= i < |rs| => Entry(rs[i].kind, rs[i].content))
  }

  lemma {:induction false} ResponseReadsBack(rs: seq<FcgiRecords.Record>, rest: seq<byte>)
    requires Response(rs)
    ensures ParseAll(ResponseBytes(rs) + rest) == Entries(rs) + ParseAll(rest)
  {
    hide ParseRecord, Bytes;
    if rs == [] {
      assert ResponseBytes(rs) + rest == rest;
    } else {
      var after := ResponseBytes(rs[1..]) + rest;
      assert ResponseBytes(rs) + rest == Bytes(rs[0]) + after;
      RecordReadsBack(rs[0], after);
      ResponseReadsBack(rs[1..], rest);
      assert Entries(rs) == [Entry(rs[0].kind, rs[0].content)] + Entries(rs[1..]);
      assert [Entry(rs[0].kind, rs[0].content)] + (Entries(rs[1..]) + ParseAll(rest)) == Entries(rs) + ParseAll(rest);
    }
  }

  /**
   Of a response of any well-formed records up to the end of the request, with any paddings, what is
   to be delivered is the contents that are not standard error, in order, and the standard error is
   the others; whatever follows the end.
   */
  lemma {:induction false} ResponseArrives(rs: seq<FcgiRecords.Record>, end: FcgiRecords.Record, rest: seq<byte>)
    requires Response(rs) && Sound(end) && end.kind == EndRequest
    ensures Data(ResponseBytes(rs) + (Bytes(end) + rest)) == Select(Entries(rs), false)
    ensures Errors(ResponseBytes(rs) + (Bytes(end) + rest)) == Select(Entries(rs), true)
  {
    hide ParseRecord, Bytes, Select;
    ResponseReadsBack(rs, Bytes(end) + rest);
    RecordReadsBack(end, rest);
    assert Entries(rs) + [] == Entries(rs);
  }
}
