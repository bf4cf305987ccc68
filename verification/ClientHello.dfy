/**
 The parser of TLS client hellos (caddyhttp/httpserver/mitm.go, parseRawClientHello) against the
 layout of section 7.4.1.2 of RFC 5246 and of sections 5.1.1 and 5.1.2 of RFC 4492.
 */
module ClientHello {
  import opened ByteWords

  type uint16 = x: int | 0 <= x < 0x1_0000

  const SupportedCurves: uint16 := 10
  const SupportedPoints: uint16 := 11

  datatype Info = Info(version: uint16, suites: seq<uint16>, extensions: seq<uint16>,
                       compressions: seq<byte>, curves: seq<uint16>, points: seq<byte>)

  const NoInfo: Info := Info(0, [], [], [], [], [])

  /** The 16-bit number at a position. */
  function WordAt(b: seq<byte>, i: nat): (r: uint16)
    requires i + 2 <= |b|
  {
    Word16(b[i], b[i + 1])
  }

  /** Bytes as 16-bit numbers, two by two. */
  function Words(b: seq<byte>): (r: seq<uint16>)
    requires |b| % 2 == 0
    ensures |r| == |b| / 2
  {
    if b == [] then [] else [WordAt(b, 0)] + Words(b[2..])
  }

  // ---------------------------------------------------------------------------------------------
  // What the parser makes of any bytes: each part is read when it is all there, else it stops
  // ---------------------------------------------------------------------------------------------

  function ParseHello(data: seq<byte>): Info {
    if |data| < 42 then NoInfo
    else
      var info := NoInfo.(version := WordAt(data, 4));
      var n: int := data[38];
      if n > 32 || |data| < 39 + n then info else ParseSuites(info, data[39 + n..])
  }

  function ParseSuites(info: Info, data: seq<byte>): Info {
    if |data| < 2 then info
    else
      var n := WordAt(data, 0);
      if n % 2 == 1 || |data| < 2 + n then info
      else ParseCompressions(info.(suites := Words(data[2..2 + n])), data[2 + n..])
  }

  function ParseCompressions(info: Info, data: seq<byte>): Info {
    if |data| < 1 then info
    else
      var n: int := data[0];
      if |data| < 1 + n then info
      else ParseExtensionBlock(info.(compressions := data[1..1 + n]), data[1 + n..])
  }

  function ParseExtensionBlock(info: Info, data: seq<byte>): Info {
    if |data| < 2 || WordAt(data, 0) != |data| - 2 then info else ParseExtensions(info, data[2..])
  }

  function ParseExtensions(info: Info, data: seq<byte>): Info
    decreases |data|
  {
    if |data| < 4 || |data| - 4 < WordAt(data, 2) then info
    else
      var n := WordAt(data, 2);
      var (ok, next) := Note(info, WordAt(data, 0), data[4..4 + n]);
      if ok then ParseExtensions(next, data[4 + n..]) else next
  }

  /** One extension: its number is noted, and what is known of its content; the flag says whether to go on. */
  function Note(info: Info, extension: uint16, body: seq<byte>): (bool, Info) {
    var noted := info.(extensions := info.extensions + [extension]);
    if extension == SupportedCurves then
      if |body| < 2 || WordAt(body, 0) % 2 == 1 || |body| != WordAt(body, 0) + 2 then (false, noted)
      else (true, noted.(curves := Words(body[2..])))
    else if extension == SupportedPoints then
      if |body| < 1 || |body| != PointsLength(body[0]) then (false, noted)
      else (true, noted.(points := body[1..]))
    else (true, noted)
  }

  function PointsLength(n: int): int { n + 1 }

  // ---------------------------------------------------------------------------------------------
  // The parser
  // ---------------------------------------------------------------------------------------------

  lemma {:induction false} WordsGrow(b: seq<byte>, i: nat)
    requires 2 * i + 2 <= |b|
    ensures Words(b[..2 * i + 2]) == Words(b[..2 * i]) + [WordAt(b, 2 * i)]
  {
    if i == 0 {
      assert b[..2][2..] == [];
    } else {
      WordsGrow(b[2..], i - 1);
      assert b[..2 * i + 2][2..] == b[2..][..2 * i];
      assert b[..2 * i][2..] == b[2..][..2 * i - 2];
    }
  }

  /** Fills a list of 16-bit numbers from bytes. */
  method ReadWords(data: seq<byte>) returns (words: seq<uint16>)
    requires |data| % 2 == 0
    ensures words == Words(data)
  {
    var n := |data| / 2;
    words := [];
    for i := 0 to n
      invariant words == Words(data[..2 * i])
    {
      WordsGrow(data, i);
      words := words + [WordAt(data, 2 * i)];
    }
    assert data[..2 * n] == data;
  }

  /** Parses a client hello; on any bytes it ends, never reads beyond them, and keeps what it had so far. */
  method ParseRawClientHello(data: seq<byte>) returns (info: Info)
    ensures info == ParseHello(data)
  {
    hide Words, ParseExtensions;
    info := NoInfo;
    if |data| < 42 {
      return;
    }
    info := info.(version := WordAt(data, 4));
    var sessionIDLen: int := data[38];
    if sessionIDLen > 32 || |data| < 39 + sessionIDLen {
      return;
    }
    var d := data[39 + sessionIDLen..];
    if |d| < 2 {
      return;
    }
    var cipherSuiteLen: int := WordAt(d, 0);
    if cipherSuiteLen % 2 == 1 || |d| < 2 + cipherSuiteLen {
      return;
    }
    var suites := ReadWords(d[2..2 + cipherSuiteLen]);
    info := info.(suites := suites);
    d := d[2 + cipherSuiteLen..];
    if |d| < 1 {
      return;
    }
    var compressionMethodsLen: int := d[0];
    if |d| < 1 + compressionMethodsLen {
      return;
    }
    info := info.(compressions := d[1..1 + compressionMethodsLen]);
    d := d[1 + compressionMethodsLen..];
    if |d| < 2 {
      return;
    }
    var extensionsLength := WordAt(d, 0);
    if extensionsLength != |d| - 2 {
      return;
    }
    info := ReadExtensions(info, d[2..]);
  }

  method ReadExtensions(start: Info, d: seq<byte>) returns (info: Info)
    ensures info == ParseExtensions(start, d)
  {
    hide Words;
    info := start;
    var data := d;
    while |data| != 0
      invariant ParseExtensions(info, data) == ParseExtensions(start, d)
      decreases |data|
    {
      if |data| < 4 {
        return;
      }
      var extension, length := WordAt(data, 0), WordAt(data, 2);
      var body := data[4..];
      if |body| < length {
        return;
      }
      body := body[..length];
      assert data[4..4 + length] == body;
      info := info.(extensions := info.extensions + [extension]);
      if extension == SupportedCurves {
        if length < 2 {
          return;
        }
        var l: int := WordAt(body, 0);
        if l % 2 == 1 || length != l + 2 {
          return;
        }
        var curves := ReadWords(body[2..]);
        info := info.(curves := curves);
      } else if extension == SupportedPoints {
        if length < 1 {
          return;
        }
        var l: int := body[0];
        if length != l + 1 {
          return;
        }
        info := info.(points := body[1..]);
      }
      data := data[4 + length..];
    }
  }

  // ---------------------------------------------------------------------------------------------
  // Well-formed messages
  // ---------------------------------------------------------------------------------------------

  datatype Extension =
    | Curves(curves: seq<uint16>)
    | Points(points: seq<byte>)
    | Other(id: uint16, body: seq<byte>)

  /** A message; the four bytes of the handshake header come first and are not looked at. */
  datatype Hello = Hello(header: seq<byte>, version: uint16, random: seq<byte>, session: seq<byte>,
                         suites: seq<uint16>, compressions: seq<byte>, extensions: seq<Extension>, block: bool)

  function WordBytes(x: int): (r: seq<byte>)
    requires 0 <= x < 0x1_0000
    ensures |r| == 2 && 256 * (r[0] as int) + r[1] == x
  {
    [x / 256, x % 256]
  }

  function WordsBytes(ws: seq<uint16>): (r: seq<byte>)
    ensures |r| == 2 * |ws|
  {
    if ws == [] then [] else WordBytes(ws[0]) + WordsBytes(ws[1..])
  }

  function Id(e: Extension): uint16 {
    match e
    case Curves(_) => SupportedCurves
    case Points(_) => SupportedPoints
    case Other(id, _) => id
  }

  predicate ExtensionFits(e: Extension) {
    match e
    case Curves(cs) => 2 * |cs| + 2 < 0x1_0000
    case Points(ps) => |ps| < 256
    case Other(id, body) => id != SupportedCurves && id != SupportedPoints && |body| < 0x1_0000
  }

  function Body(e: Extension): (r: seq<byte>)
    requires ExtensionFits(e)
    ensures |r| < 0x1_0000
  {
    match e
    case Curves(cs) => WordBytes(2 * |cs|) + WordsBytes(cs)
    case Points(ps) => [|ps|] + ps
    case Other(_, body) => body
  }

  ghost predicate AllFit(es: seq<Extension>) {
    forall i :: 0 <= i < |es| ==> ExtensionFits(es[i])
  }

  function ExtensionsBytes(es: seq<Extension>): seq<byte>
    requires AllFit(es)
  {
    if es == [] then []
    else WordBytes(Id(es[0])) + WordBytes(|Body(es[0])|) + Body(es[0]) + ExtensionsBytes(es[1..])
  }

  /** The sizes the layout allows; without an extension block there are no extensions. */
  ghost predicate WellFormed(h: Hello) {
    && |h.header| == 4 && |h.random| == 32 && |h.session| <= 32
    && 2 * |h.suites| < 0x1_0000 && |h.compressions| < 256
    && AllFit(h.extensions) && |ExtensionsBytes(h.extensions)| < 0x1_0000 && (!h.block ==> h.extensions == [])
  }

  ghost function BlockBytes(h: Hello): seq<byte>
    requires WellFormed(h)
  {
    if h.block then WordBytes(|ExtensionsBytes(h.extensions)|) + ExtensionsBytes(h.extensions) else []
  }

  ghost function CompressionsBytes(h: Hello): seq<byte>
    requires WellFormed(h)
  {
    [|h.compressions|] + h.compressions + BlockBytes(h)
  }

  ghost function SuitesBytes(h: Hello): seq<byte>
    requires WellFormed(h)
  {
    WordBytes(2 * |h.suites|) + WordsBytes(h.suites) + CompressionsBytes(h)
  }

  ghost function HelloBytes(h: Hello): seq<byte>
    requires WellFormed(h)
  {
    h.header + WordBytes(h.version) + h.random + [|h.session|] + h.session + SuitesBytes(h)
  }

  // ---------------------------------------------------------------------------------------------
  // What a message says
  // ---------------------------------------------------------------------------------------------

  function Ids(es: seq<Extension>): seq<uint16> {
    seq(|es|, i requires 0 <= i < |es| => Id(es[i]))
  }

  /** The curves of the last extension that has any, else those known before. */
  function CurvesOf(es: seq<Extension>, before: seq<uint16>): seq<uint16> {
    if es == [] then before else CurvesOf(es[1..], if es[0].Curves? then es[0].curves else before)
  }

  function PointsOf(es: seq<Extension>, before: seq<byte>): seq<byte> {
    if es == [] then before else PointsOf(es[1..], if es[0].Points? then es[0].points else before)
  }

  /** With a single curves extension, its curves are the ones found. */
  lemma {:induction false} OneCurves(es: seq<Extension>, k: nat, before: seq<uint16>)
    requires k < |es| && es[k].Curves? && forall i :: 0 <= i < |es| && es[i].Curves? ==> i == k
    ensures CurvesOf(es, before) == es[k].curves
  {
    if k == 0 {
      NoCurves(es[1..], es[0].curves);
    } else {
      assert es[1..][k - 1] == es[k];
      OneCurves(es[1..], k - 1, before);
    }
  }

  lemma {:induction false} NoCurves(es: seq<Extension>, before: seq<uint16>)
    requires forall i :: 0 <= i < |es| ==> !es[i].Curves?
    ensures CurvesOf(es, before) == before
  {
    if es != [] {
      NoCurves(es[1..], before);
    }
  }

  lemma {:induction false} OnePoints(es: seq<Extension>, k: nat, before: seq<byte>)
    requires k < |es| && es[k].Points? && forall i :: 0 <= i < |es| && es[i].Points? ==> i == k
    ensures PointsOf(es, before) == es[k].points
  {
    if k == 0 {
      NoPoints(es[1..], es[0].points);
    } else {
      assert es[1..][k - 1] == es[k];
      OnePoints(es[1..], k - 1, before);
    }
  }

  lemma {:induction false} NoPoints(es: seq<Extension>, before: seq<byte>)
    requires forall i :: 0 <= i < |es| ==> !es[i].Points?
    ensures PointsOf(es, before) == before
  {
    if es != [] {
      NoPoints(es[1..], before);
    }
  }

  // ---------------------------------------------------------------------------------------------
  // The round trip
  // ---------------------------------------------------------------------------------------------

  lemma {:induction false} WordReadsBack(x: uint16, before: seq<byte>, rest: seq<byte>)
    ensures WordAt(before + (WordBytes(x) + rest), |before|) == x
  {
    var b := before + (WordBytes(x) + rest);
    assert b[|before|] == x / 256 && b[|before| + 1] == x % 256;
  }

  lemma {:induction false} WordsReadBack(ws: seq<uint16>)
    ensures Words(WordsBytes(ws)) == ws
  {
    if ws != [] {
      var rest := WordsBytes(ws[1..]);
      WordsReadBack(ws[1..]);
      WordReadsBack(ws[0], [], rest);
      assert [] + (WordBytes(ws[0]) + rest) == WordsBytes(ws);
      assert WordsBytes(ws)[2..] == rest;
    }
  }

  /** One extension read back: its number, and its curves or points in place of those before. */
  lemma {:induction false} NoteReadsBack(info: Info, e: Extension)
    requires ExtensionFits(e)
    ensures Note(info, Id(e), Body(e)) ==
            (true, info.(extensions := info.extensions + [Id(e)],
                         curves := if e.Curves? then e.curves else info.curves,
                         points := if e.Points? then e.points else info.points))
  {
    hide Words, WordAt, WordBytes;
    match e
    case Curves(cs) =>
      var body := Body(e);
      WordReadsBack(2 * |cs|, [], WordsBytes(cs));
      assert [] + (WordBytes(2 * |cs|) + WordsBytes(cs)) == body;
      assert body[2..] == WordsBytes(cs);
      WordsReadBack(cs);
    case Points(ps) =>
      assert Body(e)[1..] == ps;
    case Other(_, _) =>
  }

  lemma {:induction false} ExtensionsReadBack(info: Info, es: seq<Extension>)
    requires AllFit(es)
    ensures ParseExtensions(info, ExtensionsBytes(es)) ==
            info.(extensions := info.extensions + Ids(es),
                  curves := CurvesOf(es, info.curves), points := PointsOf(es, info.points))
    decreases |es|
  {
    hide WordAt, WordBytes, Note, Body, ExtensionFits, Id;
    if es == [] {
      assert info.extensions + Ids(es) == info.extensions;
    } else {
      var e, rest := es[0], ExtensionsBytes(es[1..]);
      var data, body := ExtensionsBytes(es), Body(es[0]);
      FirstExtension(Id(e), body, rest, data);
      NoteReadsBack(info, e);
      var next := Note(info, Id(e), body).1;
      ExtensionsReadBack(next, es[1..]);
      assert Ids(es) == [Id(e)] + Ids(es[1..]);
      assert info.extensions + [Id(e)] + Ids(es[1..]) == info.extensions + ([Id(e)] + Ids(es[1..]));
    }
  }

  lemma {:induction false} FirstExtension(id: uint16, body: seq<byte>, rest: seq<byte>, data: seq<byte>)
    requires |body| < 0x1_0000 && data == WordBytes(id) + WordBytes(|body|) + body + rest
    ensures |data| >= 4 && WordAt(data, 0) == id && WordAt(data, 2) == |body| && |data| - 4 >= |body|
    ensures data[4..4 + |body|] == body && data[4 + |body|..] == rest
  {
    hide WordAt, WordBytes;
    WordReadsBack(id, [], WordBytes(|body|) + body + rest);
    assert data == [] + (WordBytes(id) + (WordBytes(|body|) + body + rest));
    WordReadsBack(|body|, WordBytes(id), body + rest);
    assert data == WordBytes(id) + (WordBytes(|body|) + (body + rest));
  }

  lemma {:induction false} BlockReadsBack(info: Info, h: Hello)
    requires WellFormed(h)
    ensures ParseExtensionBlock(info, BlockBytes(h)) ==
            info.(extensions := info.extensions + Ids(h.extensions),
                  curves := CurvesOf(h.extensions, info.curves), points := PointsOf(h.extensions, info.points))
  {
    hide WordAt, WordBytes, ParseExtensions, ExtensionsBytes;
    ExtensionsReadBack(info, h.extensions);
    if h.block {
      var data, rest := BlockBytes(h), ExtensionsBytes(h.extensions);
      WordReadsBack(|rest|, [], rest);
      assert data == [] + (WordBytes(|rest|) + rest);
      assert data[2..] == rest;
    } else {
      assert info.extensions + Ids(h.extensions) == info.extensions;
    }
  }

  lemma {:induction false} CompressionsReadBack(info: Info, h: Hello)
    requires WellFormed(h)
    ensures ParseCompressions(info, CompressionsBytes(h)) ==
            ParseExtensionBlock(info.(compressions := h.compressions), BlockBytes(h))
  {
    hide ParseExtensionBlock, BlockBytes;
    var data := CompressionsBytes(h);
    assert data[1..1 + |h.compressions|] == h.compressions;
    assert data[1 + |h.compressions|..] == BlockBytes(h);
  }

  lemma {:induction false} SuitesReadBack(info: Info, h: Hello)
    requires WellFormed(h)
    ensures ParseSuites(info, SuitesBytes(h)) == ParseCompressions(info.(suites := h.suites), CompressionsBytes(h))
  {
    hide ParseCompressions, CompressionsBytes, WordAt, WordBytes, Words, WordsBytes;
    var data, n, rest := SuitesBytes(h), 2 * |h.suites|, CompressionsBytes(h);
    WordReadsBack(n, [], WordsBytes(h.suites) + rest);
    assert data == [] + (WordBytes(n) + (WordsBytes(h.suites) + rest));
    assert data[2..2 + n] == WordsBytes(h.suites);
    assert data[2 + n..] == rest;
    WordsReadBack(h.suites);
  }

  /**
   The round trip: from every well-formed message the parser recovers exactly the version, the
   cipher suites, the compression methods, the numbers of the extensions in order, and the curves
   and points of the last extension that carries them.
   */
  lemma {:induction false} HelloRoundTrip(h: Hello)
    requires WellFormed(h)
    ensures ParseHello(HelloBytes(h)) ==
            Info(h.version, h.suites, Ids(h.extensions), h.compressions, CurvesOf(h.extensions, []),
                 PointsOf(h.extensions, []))
  {
    hide ParseSuites, WordAt, WordBytes;
    var data, rest, n := HelloBytes(h), SuitesBytes(h), |h.session|;
    Layout(h, data);
    var info := NoInfo.(version := h.version);
    SuitesReadBack(info, h);
    CompressionsReadBack(info.(suites := h.suites), h);
    BlockReadsBack(info.(suites := h.suites, compressions := h.compressions), h);
    assert [] + Ids(h.extensions) == Ids(h.extensions);
  }

  lemma {:induction false} Layout(h: Hello, data: seq<byte>)
    requires WellFormed(h) && data == HelloBytes(h)
    ensures |data| >= 42 && WordAt(data, 4) == h.version && data[38] == |h.session| &&
            data[39 + |h.session|..] == SuitesBytes(h)
  {
    hide WordAt, WordBytes, WordsBytes, BlockBytes;
    var rest := SuitesBytes(h);
    WordReadsBack(h.version, h.header, h.random + [|h.session|] + h.session + rest);
    assert data == h.header + (WordBytes(h.version) + (h.random + [|h.session|] + h.session + rest));
    assert |rest| >= 3;
  }
}
