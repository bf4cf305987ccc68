/**
 Name-value pairs (caddyhttp/fastcgi/fcgiclient.go, encodeSize and writePairs): the encoding of
 section 3.4 of the FastCGI Specification 1.0, and the reader that section describes.
 */
module FcgiPairs {
  import opened ByteWords
  import opened FcgiRecords
  import opened Wrappers

  datatype Pair = Pair(name: seq<byte>, value: seq<byte>)

  /** The highest bit of a 32-bit number. */
  const TopBit: nat := 0x8000_0000

  /** A number below 2^32 with its highest bit set. */
  function WithTopBit(size: nat): (r: nat)
    requires size < 2 * TopBit
    ensures TopBit <= r < 2 * TopBit && r % TopBit == size % TopBit
  {
    if size >= TopBit then size else size + TopBit
  }

  function BigEndian(x: nat): (r: seq<byte>)
    requires x < 2 * TopBit
    ensures |r| == 4
    ensures 0x100_0000 * (r[0] as int) + 0x1_0000 * (r[1] as int) + 0x100 * (r[2] as int) + r[3] == x
  {
    var hi, lo := x / 0x1_0000, x % 0x1_0000;
    [hi / 256, hi % 256, lo / 256, lo % 256]
  }

  function FromBigEndian(b: seq<byte>): (r: nat)
    requires |b| >= 4
  {
    Word16(b[0], b[1]) * 0x1_0000 + Word16(b[2], b[3])
  }

  lemma {:induction false} BigEndianReadsBack(x: nat, rest: seq<byte>)
    requires x < 2 * TopBit
    ensures FromBigEndian(BigEndian(x) + rest) == x
  {
  }

  /** The bytes of a length: one below 128, else four with the highest bit set. */
  function SizeBytes(size: nat): (r: seq<byte>)
    requires size < 2 * TopBit
    ensures |r| == if size > 127 then 4 else 1
  {
    if size > 127 then BigEndian(WithTopBit(size)) else [size]
  }

  /** Writes a length into a buffer and says how many bytes it took. */
  method EncodeSize(b: array<byte>, at: nat, size: nat) returns (n: nat)
    requires size < 2 * TopBit && at + 4 <= b.Length
    modifies b
    ensures n == |SizeBytes(size)| && b[at..at + n] == SizeBytes(size)
    ensures b[..at] == old(b[..at]) && b[at + n..] == old(b[at + n..])
  {
    if size > 127 {
      var bytes := BigEndian(WithTopBit(size));
      b[at], b[at + 1], b[at + 2], b[at + 3] := bytes[0], bytes[1], bytes[2], bytes[3];
      return 4;
    }
    b[at] := size;
    return 1;
  }

  /** Reads a length as the specification says: by the highest bit of the first byte. */
  function ParseSize(b: seq<byte>): (r: Option<(nat, seq<byte>)>)
    ensures r.Some? ==> |r.value.1| < |b|
  {
    if b == [] then None
    else if b[0] < 128 then Some((b[0], b[1..]))
    else if |b| < 4 then None
    else Some((FromBigEndian(b) - TopBit, b[4..]))
  }

  /** A length reads back exactly when it leaves the highest bit free. */
  lemma {:induction false} SizeReadsBack(size: nat, rest: seq<byte>)
    requires size < 2 * TopBit
    ensures ParseSize(SizeBytes(size) + rest) == Some((size, rest)) <==> size < TopBit
  {
    hide BigEndian, FromBigEndian;
    var b := SizeBytes(size) + rest;
    if size > 127 {
      var x := WithTopBit(size);
      BigEndianReadsBack(x, rest);
      FirstByte(x);
      assert b[0] == BigEndian(x)[0];
      assert b[4..] == rest;
    } else {
      assert b[1..] == rest;
    }
  }

  lemma {:induction false} FirstByte(x: nat)
    requires TopBit <= x < 2 * TopBit
    ensures BigEndian(x)[0] >= 128
  {
  }

  // ---------------------------------------------------------------------------------------------
  // Pairs
  // ---------------------------------------------------------------------------------------------

  predicate Short(p: Pair) {
    |p.name| < TopBit && |p.value| < TopBit
  }

  function PairBytes(p: Pair): (r: seq<byte>)
    requires Short(p)
    ensures |p.name| + |p.value| < |r| <= 8 + |p.name| + |p.value|
  {
    SizeBytes(|p.name|) + SizeBytes(|p.value|) + p.name + p.value
  }

  ghost predicate AllShort(ps: seq<Pair>) {
    forall i :: 0 <= i < |ps| ==> Short(ps[i])
  }

  function PairsBytes(ps: seq<Pair>): seq<byte>
    requires AllShort(ps)
  {
    if ps == [] then [] else PairBytes(ps[0]) + PairsBytes(ps[1..])
  }

  /** Reads one pair. */
  function ParsePair(b: seq<byte>): (r: Option<(Pair, seq<byte>)>)
    ensures r.Some? ==> |r.value.1| < |b|
  {
    match ParseSize(b)
    case None => None
    case Some((n, after)) =>
      match ParseSize(after)
      case None => None
      case Some((m, body)) =>
        if |body| < n + m then None else Some((Pair(body[..n], body[n..n + m]), body[n + m..]))
  }

  /** Reads all pairs, to the end. */
  function ParsePairs(b: seq<byte>): Option<seq<Pair>>
    decreases |b|
  {
    if b == [] then Some([])
    else
      match ParsePair(b)
      case None => None
      case Some((p, rest)) =>
        match ParsePairs(rest)
        case None => None
        case Some(ps) => Some([p] + ps)
  }

  lemma {:induction false} PairReadsBack(p: Pair, rest: seq<byte>)
    requires Short(p)
    ensures ParsePair(PairBytes(p) + rest) == Some((p, rest))
  {
    hide SizeBytes, ParseSize;
    var n, m := SizeBytes(|p.name|), SizeBytes(|p.value|);
    var body := p.name + p.value + rest;
    assert PairBytes(p) + rest == n + (m + body);
    SizeReadsBack(|p.name|, m + body);
    SizeReadsBack(|p.value|, body);
    assert body[..|p.name|] == p.name;
    assert body[|p.name|..|p.name| + |p.value|] == p.value;
    assert body[|p.name| + |p.value|..] == rest;
  }

  /** Encoded pairs read back by the specification's reader. */
  lemma {:induction false} PairsReadBack(ps: seq<Pair>)
    requires AllShort(ps)
    ensures ParsePairs(PairsBytes(ps)) == Some(ps)
  {
    hide PairBytes, ParsePair;
    if ps != [] {
      PairReadsBack(ps[0], PairsBytes(ps[1..]));
      PairsReadBack(ps[1..]);
      assert ps == [ps[0]] + ps[1..];
    }
  }

  lemma {:induction false} PairsAppend(ps: seq<Pair>, qs: seq<Pair>)
    requires AllShort(ps) && AllShort(qs)
    ensures AllShort(ps + qs) && PairsBytes(ps + qs) == PairsBytes(ps) + PairsBytes(qs)
  {
    hide PairBytes;
    if ps == [] {
      assert ps + qs == qs;
    } else {
      PairsAppend(ps[1..], qs);
      assert (ps + qs)[1..] == ps[1..] + qs;
    }
  }

  lemma {:induction false} PairsOne(p: Pair)
    requires Short(p)
    ensures PairsBytes([p]) == PairBytes(p)
  {
    assert [p][1..] == [];
    assert PairsBytes([p]) == PairBytes(p) + PairsBytes([]);
  }

  /** A pair as it is sent: the value cut so that name, value and eight bytes of lengths fit one record. */
  function Cut(p: Pair): (r: Pair)
    requires |p.name| <= MaxWrite - 8
    ensures r.name == p.name && r.value <= p.value && Short(r) && |PairBytes(r)| <= MaxWrite
    ensures r == p <==> 8 + |p.name| + |p.value| <= MaxWrite
    ensures r != p ==> 8 + |r.name| + |r.value| == MaxWrite
  {
    if 8 + |p.name| + |p.value| > MaxWrite then Pair(p.name, p.value[..MaxWrite - 8 - |p.name|]) else p
  }

  ghost predicate Sendable(ps: seq<Pair>) {
    forall i :: 0 <= i < |ps| ==> |ps[i].name| <= MaxWrite - 8
  }

  ghost function CutAll(ps: seq<Pair>): (r: seq<Pair>)
    requires Sendable(ps)
    ensures |r| == |ps| && AllShort(r) && forall i :: 0 <= i < |ps| ==> r[i] == Cut(ps[i])
  {
    seq(|ps|, i requires 0 <= i < |ps| => Cut(ps[i]))
  }
}
