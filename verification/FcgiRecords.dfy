/**
 FastCGI records (caddyhttp/fastcgi/fcgiclient.go): header, content and padding, as section 3.3 of
 the FastCGI Specification 1.0 lays them out; writing one and reading one back.
 */
module FcgiRecords {
  import opened ByteWords

  const BeginRequest: byte := 1
  const EndRequest: byte := 3
  const Params: byte := 4
  const Stdin: byte := 5
  const Stderr: byte := 7

  const HeaderLen: nat := 8
  const MaxWrite: nat := 65500

  datatype Header = Header(version: byte, kind: byte, id: nat, contentLength: nat, paddingLength: byte, reserved: byte)

  /** A header whose numbers fit their fields. */
  predicate Fits(h: Header) {
    h.id < 0x1_0000 && h.contentLength < 0x1_0000
  }

  function HeaderBytes(h: Header): (r: seq<byte>)
    requires Fits(h)
    ensures |r| == HeaderLen && r[0] == h.version && r[1] == h.kind && r[6] == h.paddingLength && r[7] == h.reserved
    ensures 256 * (r[2] as int) + r[3] == h.id && 256 * (r[4] as int) + r[5] == h.contentLength
  {
    [h.version, h.kind, h.id / 256, h.id % 256, h.contentLength / 256, h.contentLength % 256, h.paddingLength,
     h.reserved]
  }

  function ParseHeader(b: seq<byte>): (r: Header)
    requires |b| >= HeaderLen
    ensures Fits(r)
  {
    Header(b[0], b[1], Word16(b[2], b[3]), Word16(b[4], b[5]), b[6], b[7])
  }

  lemma {:induction false} HeaderReadsBack(h: Header, rest: seq<byte>)
    requires Fits(h)
    ensures ParseHeader(HeaderBytes(h) + rest) == h
  {
  }

  /** The header of a record: the length is cut to its 16 bits, the padding is what is missing to a multiple of 8. */
  function HeaderFor(kind: byte, id: nat, contentLength: nat): (r: Header)
    requires id < 0x1_0000
    ensures Fits(r) && (HeaderLen + contentLength + r.paddingLength) % 8 == 0 && r.paddingLength < 8
    ensures r.contentLength == contentLength <==> contentLength < 0x1_0000
  {
    Header(1, kind, id, contentLength % 0x1_0000, (8 - contentLength % 8) % 8, 0)
  }

  function Zeros(n: nat): (r: seq<byte>)
    ensures |r| == n
  {
    seq(n, _ => 0)
  }

  /** The bytes of a record as the client writes it. */
  function RecordBytes(kind: byte, id: nat, content: seq<byte>): (r: seq<byte>)
    requires id < 0x1_0000
    ensures |r| % 8 == 0 && |content| < |r|
  {
    var h := HeaderFor(kind, id, |content|);
    HeaderBytes(h) + content + Zeros(h.paddingLength)
  }

  // ---------------------------------------------------------------------------------------------
  // Reading
  // ---------------------------------------------------------------------------------------------

  datatype Error = EndOfFile | ShortRead | BadVersion

  /** What reading a record from some bytes gives: the record and the bytes after it, or an error. */
  datatype Parsed =
    | Got(kind: byte, content: seq<byte>, rest: seq<byte>)
    | Failed(error: Error, left: seq<byte>)

  function ParseRecord(b: seq<byte>): (r: Parsed)
    ensures r.Got? ==> |r.rest| + HeaderLen <= |b|
  {
    if |b| < HeaderLen then Failed(if b == [] then EndOfFile else ShortRead, [])
    else
      var h, after := ParseHeader(b), b[HeaderLen..];
      if h.version != 1 then Failed(BadVersion, after)
      else if h.kind == EndRequest then Failed(EndOfFile, after)
      else
        var n := h.contentLength + h.paddingLength;
        if |after| < n then Failed(if after == [] then EndOfFile else ShortRead, [])
        else Got(h.kind, after[..h.contentLength], after[n..])
  }

  /** A record on the wire with any padding and any reserved byte. */
  datatype Record = Record(kind: byte, id: nat, content: seq<byte>, padding: seq<byte>, reserved: byte)

  predicate Sound(r: Record) {
    r.id < 0x1_0000 && |r.content| < 0x1_0000 && |r.padding| < 256
  }

  function Bytes(r: Record): seq<byte>
    requires Sound(r)
  {
    HeaderBytes(Header(1, r.kind, r.id, |r.content|, |r.padding|, r.reserved)) + r.content + r.padding
  }

  /** A well-formed record reads back as its kind and content, and nothing after it is touched. */
  lemma {:induction false} RecordReadsBack(r: Record, rest: seq<byte>)
    requires Sound(r)
    ensures r.kind != EndRequest ==> ParseRecord(Bytes(r) + rest) == Got(r.kind, r.content, rest)
    ensures r.kind == EndRequest ==> ParseRecord(Bytes(r) + rest) == Failed(EndOfFile, r.content + r.padding + rest)
  {
    hide HeaderBytes, ParseHeader;
    var h := Header(1, r.kind, r.id, |r.content|, |r.padding|, r.reserved);
    var after := r.content + r.padding + rest;
    var b := Bytes(r) + rest;
    assert b == HeaderBytes(h) + after;
    HeaderReadsBack(h, after);
    assert b[HeaderLen..] == after;
    assert after[..|r.content|] == r.content;
    assert after[|r.content| + |r.padding|..] == rest;
  }

  /** Nothing else reads as a record. */
  lemma {:induction false} OnlyRecordsRead(b: seq<byte>) returns (r: Record)
    requires ParseRecord(b).Got?
    ensures Sound(r) && r.kind == ParseRecord(b).kind && r.kind != EndRequest && r.content == ParseRecord(b).content
    ensures b == Bytes(r) + ParseRecord(b).rest
  {
    hide HeaderBytes, ParseHeader;
    var h, after, p := ParseHeader(b), b[HeaderLen..], ParseRecord(b);
    r := Record(h.kind, h.id, p.content, after[h.contentLength..h.contentLength + h.paddingLength], h.reserved);
    assert after == r.content + r.padding + p.rest;
    HeaderWritesBack(b);
    assert b == b[..HeaderLen] + after;
  }

  lemma {:induction false} HeaderWritesBack(b: seq<byte>)
    requires |b| >= HeaderLen
    ensures HeaderBytes(ParseHeader(b)) == b[..HeaderLen]
  {
    WordParts(b[2], b[3]);
    WordParts(b[4], b[5]);
  }

  lemma {:induction false} WordParts(hi: byte, lo: byte)
    ensures Word16(hi, lo) / 256 == hi && Word16(hi, lo) % 256 == lo
  {
  }

  /**
   A record that is cut off gives an error: the end of the file right before a header or a content,
   else a short read.
   */
  lemma {:induction false} CutOff(r: Record, k: nat)
    requires Sound(r) && r.kind != EndRequest && k < |Bytes(r)|
    ensures ParseRecord(Bytes(r)[..k]) == Failed(if k == 0 || k == HeaderLen then EndOfFile else ShortRead, [])
  {
    hide HeaderBytes, ParseHeader;
    var h := Header(1, r.kind, r.id, |r.content|, |r.padding|, r.reserved);
    var b := Bytes(r)[..k];
    if k >= HeaderLen {
      assert b == HeaderBytes(h) + b[HeaderLen..];
      HeaderReadsBack(h, b[HeaderLen..]);
    }
  }

  /** What the client writes is a well-formed record as long as its length fits the header. */
  lemma {:induction false} WrittenIsSound(kind: byte, id: nat, content: seq<byte>)
    requires id < 0x1_0000 && |content| < 0x1_0000
    ensures var r := Record(kind, id, content, Zeros(HeaderFor(kind, id, |content|).paddingLength), 0);
            Sound(r) && Bytes(r) == RecordBytes(kind, id, content)
  {
  }

  /** Written records read back. */
  lemma {:induction false} WrittenReadsBack(kind: byte, id: nat, content: seq<byte>, rest: seq<byte>)
    requires id < 0x1_0000 && |content| < 0x1_0000 && kind != EndRequest
    ensures ParseRecord(RecordBytes(kind, id, content) + rest) == Got(kind, content, rest)
  {
    WrittenIsSound(kind, id, content);
    RecordReadsBack(Record(kind, id, content, Zeros(HeaderFor(kind, id, |content|).paddingLength), 0), rest);
  }

  /** A content too long for the header does not read back: its length was cut. */
  lemma {:induction false} LongDoesNotReadBack(kind: byte, id: nat, content: seq<byte>, rest: seq<byte>)
    requires id < 0x1_0000 && |content| >= 0x1_0000 && kind != EndRequest
    ensures ParseRecord(RecordBytes(kind, id, content) + rest) != Got(kind, content, rest)
  {
    hide HeaderBytes, ParseHeader;
    var h := HeaderFor(kind, id, |content|);
    var after := content + Zeros(h.paddingLength) + rest;
    var b := RecordBytes(kind, id, content) + rest;
    assert b == HeaderBytes(h) + after;
    HeaderReadsBack(h, after);
    assert b[HeaderLen..] == after;
    assert |after[..h.contentLength]| < |content|;
  }
}
