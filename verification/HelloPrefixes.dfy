/**
 What the parser of client hellos makes of bytes that are not a message (caddyhttp/httpserver/mitm.go,
 parseRawClientHello): stage by stage, it goes on exactly when the next part of the layout is there,
 and else stops with what it has.
 */
module HelloPrefixes {
  import opened ByteWords
  import opened ClientHello

  lemma {:induction false} WordWritesBack(b: seq<byte>, i: nat)
    requires i + 2 <= |b|
    ensures WordBytes(WordAt(b, i)) == b[i..i + 2]
  {
  }

  lemma {:induction false} WordsWriteBack(b: seq<byte>)
    requires |b| % 2 == 0
    ensures WordsBytes(Words(b)) == b
    decreases |b|
  {
    hide WordAt, WordBytes;
    if b != [] {
      WordsWriteBack(b[2..]);
      WordWritesBack(b, 0);
      assert ([WordAt(b, 0)] + Words(b[2..]))[1..] == Words(b[2..]);
      assert b == b[0..2] + b[2..];
    }
  }

  // ---------------------------------------------------------------------------------------------
  // The parts of the layout
  // ---------------------------------------------------------------------------------------------

  /** Header, version, random bytes and session identifier, and what follows. */
  ghost predicate StartsMessage(data: seq<byte>, version: uint16, rest: seq<byte>) {
    exists header: seq<byte>, random: seq<byte>, session: seq<byte> ::
      && |header| == 4 && |random| == 32 && |session| <= 32
      && data == header + WordBytes(version) + random + [|session|] + session + rest
  }

  /** Cipher suites with their length in bytes. */
  ghost predicate StartsSuites(data: seq<byte>, suites: seq<uint16>, rest: seq<byte>) {
    2 * |suites| < 0x1_0000 && data == WordBytes(2 * |suites|) + WordsBytes(suites) + rest
  }

  /** Compression methods with their number. */
  ghost predicate StartsCompressions(data: seq<byte>, compressions: seq<byte>, rest: seq<byte>) {
    |compressions| < 256 && data == [|compressions|] + compressions + rest
  }

  /** An extension with its length. */
  ghost predicate StartsExtension(data: seq<byte>, id: uint16, body: seq<byte>, rest: seq<byte>) {
    |body| < 0x1_0000 && data == WordBytes(id) + WordBytes(|body|) + body + rest
  }

  // ---------------------------------------------------------------------------------------------
  // The stages
  // ---------------------------------------------------------------------------------------------

  /**
   Of fewer than 42 bytes nothing is read. Otherwise the version is, and the suites follow if a
   session identifier of at most 32 bytes does.
   */
  lemma {:induction false} MessageOrNothing(data: seq<byte>)
    ensures |data| < 42 ==> ParseHello(data) == NoInfo
    ensures |data| >= 42 ==> ParseHello(data).version == WordAt(data, 4)
    ensures forall version, rest :: |data| >= 42 && StartsMessage(data, version, rest) ==>
                                    ParseHello(data) == ParseSuites(NoInfo.(version := version), rest)
    ensures |data| >= 42 && (forall version, rest :: !StartsMessage(data, version, rest)) ==>
              ParseHello(data) == NoInfo.(version := WordAt(data, 4))
  {
    hide ParseSuites, WordAt, WordBytes;
    if |data| >= 42 {
      var version, n := WordAt(data, 4), data[38] as int;
      forall v, rest | StartsMessage(data, v, rest)
        ensures ParseHello(data) == ParseSuites(NoInfo.(version := v), rest)
      {
        MessageReads(data, v, rest);
      }
      if n <= 32 && |data| >= 39 + n {
        MessageStarts(data);
        VersionStays(NoInfo.(version := version), data[39 + n..]);
      }
    }
  }

  lemma {:induction false} MessageReads(data: seq<byte>, version: uint16, rest: seq<byte>)
    requires |data| >= 42 && StartsMessage(data, version, rest)
    ensures WordAt(data, 4) == version && data[38] <= 32 && |data| >= 39 + data[38] as int
    ensures data[39 + data[38] as int..] == rest
  {
    hide WordAt, WordBytes;
    var header: seq<byte>, random: seq<byte>, session: seq<byte> :|
      && |header| == 4 && |random| == 32 && |session| <= 32
      && data == header + WordBytes(version) + random + [|session|] + session + rest;
    WordReadsBack(version, header, random + [|session|] + session + rest);
    SixParts(header, WordBytes(version), random, |session|, session, rest);
  }

  lemma {:induction false} SixParts(a: seq<byte>, b: seq<byte>, c: seq<byte>, x: byte, d: seq<byte>, rest: seq<byte>)
    requires |a| == 4 && |b| == 2 && |c| == 32
    ensures var data := a + b + c + [x] + d + rest;
            && data == a + (b + (c + [x] + d + rest)) && |data| >= 39 + |d| && data[38] == x && data[39 + |d|..] == rest
  {
  }

  lemma {:induction false} MessageStarts(data: seq<byte>)
    requires |data| >= 42 && data[38] <= 32 && |data| >= 39 + data[38] as int
    ensures StartsMessage(data, WordAt(data, 4), data[39 + data[38] as int..])
  {
    hide WordAt, WordBytes;
    var n := data[38] as int;
    WordWritesBack(data, 4);
    var header, random, session := data[..4], data[6..38], data[39..39 + n];
    assert data == header + data[4..6] + random + [|session|] + session + data[39 + n..];
  }

  /** Nothing that is read later changes the version. */
  lemma {:induction false} VersionStays(info: Info, data: seq<byte>)
    ensures ParseSuites(info, data).version == info.version
  {
    hide Words, WordAt, ParseExtensions;
    forall i: Info, d
      ensures ParseExtensions(i, d).version == i.version
    {
      ExtensionsKeepVersion(i, d);
    }
  }

  lemma {:induction false} ExtensionsKeepVersion(info: Info, data: seq<byte>)
    ensures ParseExtensions(info, data).version == info.version
    decreases |data|
  {
    hide Words, WordAt;
    if |data| >= 4 && |data| - 4 >= WordAt(data, 2) {
      var n := WordAt(data, 2);
      ExtensionsKeepVersion(Note(info, WordAt(data, 0), data[4..4 + n]).1, data[4 + n..]);
    }
  }

  lemma {:induction false} SuitesOrStop(info: Info, data: seq<byte>)
    ensures forall suites, rest :: StartsSuites(data, suites, rest) ==>
                                   ParseSuites(info, data) == ParseCompressions(info.(suites := suites), rest)
    ensures (forall suites, rest :: !StartsSuites(data, suites, rest)) ==> ParseSuites(info, data) == info
  {
    hide ParseCompressions, WordAt, WordBytes, Words, WordsBytes;
    forall suites, rest | StartsSuites(data, suites, rest)
      ensures ParseSuites(info, data) == ParseCompressions(info.(suites := suites), rest)
    {
      var n := 2 * |suites|;
      WordReadsBack(n, [], WordsBytes(suites) + rest);
      assert data == [] + (WordBytes(n) + (WordsBytes(suites) + rest));
      assert data[2..2 + n] == WordsBytes(suites) && data[2 + n..] == rest;
      WordsReadBack(suites);
    }
    if |data| >= 2 {
      var n: int := WordAt(data, 0);
      if n % 2 == 0 && |data| >= 2 + n {
        WordWritesBack(data, 0);
        WordsWriteBack(data[2..2 + n]);
        assert data == data[0..2] + data[2..2 + n] + data[2 + n..];
        assert StartsSuites(data, Words(data[2..2 + n]), data[2 + n..]);
      }
    }
  }

  lemma {:induction false} CompressionsOrStop(info: Info, data: seq<byte>)
    ensures forall cs, rest :: StartsCompressions(data, cs, rest) ==>
                               ParseCompressions(info, data) == ParseExtensionBlock(info.(compressions := cs), rest)
    ensures (forall cs, rest :: !StartsCompressions(data, cs, rest)) ==> ParseCompressions(info, data) == info
  {
    hide ParseExtensionBlock;
    forall cs, rest | StartsCompressions(data, cs, rest)
      ensures ParseCompressions(info, data) == ParseExtensionBlock(info.(compressions := cs), rest)
    {
      assert data[0] == |cs| && data[1..1 + |cs|] == cs && data[1 + |cs|..] == rest;
    }
    if |data| >= 1 {
      var n := data[0] as int;
      if |data| >= 1 + n {
        assert data == [|data[1..1 + n]|] + data[1..1 + n] + data[1 + n..];
        assert StartsCompressions(data, data[1..1 + n], data[1 + n..]);
      }
    }
  }

  /** The extensions are read only if their length is exactly that of all the bytes left. */
  lemma {:induction false} BlockOrStop(info: Info, data: seq<byte>)
    ensures forall rest :: |rest| < 0x1_0000 && data == WordBytes(|rest|) + rest ==>
                           ParseExtensionBlock(info, data) == ParseExtensions(info, rest)
    ensures (forall rest :: |rest| < 0x1_0000 ==> data != WordBytes(|rest|) + rest) ==>
              ParseExtensionBlock(info, data) == info
  {
    hide ParseExtensions, WordAt, WordBytes;
    forall rest | |rest| < 0x1_0000 && data == WordBytes(|rest|) + rest
      ensures ParseExtensionBlock(info, data) == ParseExtensions(info, rest)
    {
      WordReadsBack(|rest|, [], rest);
      assert data == [] + (WordBytes(|rest|) + rest) && data[2..] == rest;
    }
    if |data| >= 2 && WordAt(data, 0) == |data| - 2 {
      WordWritesBack(data, 0);
      assert data == data[0..2] + data[2..];
    }
  }

  /** One extension after the other, as long as one is there and what is known of its content is sound. */
  lemma {:induction false} ExtensionOrStop(info: Info, data: seq<byte>)
    ensures forall id, body, rest :: StartsExtension(data, id, body, rest) ==>
                                     ParseExtensions(info, data) ==
                                     if Note(info, id, body).0 then ParseExtensions(Note(info, id, body).1, rest)
                                     else Note(info, id, body).1
    ensures (forall id, body, rest :: !StartsExtension(data, id, body, rest)) ==> ParseExtensions(info, data) == info
  {
    hide ParseExtensions, StartsExtension, Note;
    forall id, body, rest | StartsExtension(data, id, body, rest)
      ensures ParseExtensions(info, data) ==
              if Note(info, id, body).0 then ParseExtensions(Note(info, id, body).1, rest) else Note(info, id, body).1
    {
      ExtensionReads(info, data, id, body, rest);
    }
    if |data| >= 4 && |data| - 4 >= WordAt(data, 2) {
      ExtensionStarts(data);
    } else {
      ExtensionsStop(info, data);
    }
  }

  lemma {:induction false} ExtensionReads(info: Info, data: seq<byte>, id: uint16, body: seq<byte>, rest: seq<byte>)
    requires StartsExtension(data, id, body, rest)
    ensures ParseExtensions(info, data) ==
            if Note(info, id, body).0 then ParseExtensions(Note(info, id, body).1, rest) else Note(info, id, body).1
  {
    hide WordAt, WordBytes, Note;
    FirstExtension(id, body, rest, data);
  }

  lemma {:induction false} ExtensionStarts(data: seq<byte>)
    requires |data| >= 4 && |data| - 4 >= WordAt(data, 2)
    ensures var n := WordAt(data, 2); StartsExtension(data, WordAt(data, 0), data[4..4 + n], data[4 + n..])
  {
    hide WordAt, WordBytes;
    var n := WordAt(data, 2);
    WordWritesBack(data, 0);
    WordWritesBack(data, 2);
    assert data == data[0..2] + data[2..4] + data[4..4 + n] + data[4 + n..];
  }

  lemma {:induction false} ExtensionsStop(info: Info, data: seq<byte>)
    requires |data| < 4 || |data| - 4 < WordAt(data, 2)
    ensures ParseExtensions(info, data) == info
  {
    hide WordAt;
  }

  /**
   The number of every extension is noted, and its curves or points if its content is a list of them;
   another content of such an extension ends the parse, with nothing more noted.
   */
  lemma {:induction false} NoteOrStop(info: Info, id: uint16, body: seq<byte>)
    requires |body| < 0x1_0000
    ensures forall e :: ExtensionFits(e) && Id(e) == id && Body(e) == body ==>
                        Note(info, id, body) ==
                        (true, info.(extensions := info.extensions + [id],
                                     curves := if e.Curves? then e.curves else info.curves,
                                     points := if e.Points? then e.points else info.points))
    ensures (forall e :: ExtensionFits(e) && Id(e) == id ==> Body(e) != body) ==>
              Note(info, id, body) == (false, info.(extensions := info.extensions + [id]))
  {
    hide WordAt, WordBytes, Words, WordsBytes, Body;
    forall e | ExtensionFits(e) && Id(e) == id && Body(e) == body
      ensures Note(info, id, body) ==
              (true, info.(extensions := info.extensions + [id],
                           curves := if e.Curves? then e.curves else info.curves,
                           points := if e.Points? then e.points else info.points))
    {
      NoteReadsBack(info, e);
    }
    if Note(info, id, body).0 {
      var _ := ExtensionIn(info, id, body);
    }
  }

  lemma {:induction false} ExtensionIn(info: Info, id: uint16, body: seq<byte>) returns (e: Extension)
    requires |body| < 0x1_0000 && Note(info, id, body).0
    ensures ExtensionFits(e) && Id(e) == id && Body(e) == body
  {
    hide WordAt, WordBytes, Words, WordsBytes;
    if id == SupportedCurves {
      e := Curves(Words(body[2..]));
      WordWritesBack(body, 0);
      WordsWriteBack(body[2..]);
      assert body == body[0..2] + body[2..];
    } else if id == SupportedPoints {
      e := Points(body[1..]);
      assert body == [|body[1..]|] + body[1..];
    } else {
      e := Other(id, body);
    }
  }
}
