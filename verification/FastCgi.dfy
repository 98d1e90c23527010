/** The small FastCGI client: name-value pairs, records and the response reader. */
module FastCgi {
  import opened Common

  type Byte = n: int | 0 <= n < 256
  type Bytes = seq<Byte>

  // ---------------------------------------------------------------------
  // Name-value pairs
  // ---------------------------------------------------------------------

  const TWO32 := 0x1_0000_0000
  const TWO31 := 0x8000_0000

  /** A 16-bit number, high byte first. */
  function Word16(hi: Byte, lo: Byte): nat {
    (hi as int) * 256 + (lo as int)
  }

  function Bytes16(w: nat): (r: Bytes)
    requires w < 0x1_0000
    ensures |r| == 2
  {
    [w / 256, w % 256]
  }

  /** A 32-bit number, high byte first. */
  function BigEndian32(n: nat): (r: Bytes)
    requires n < TWO32
    ensures |r| == 4
  {
    Bytes16(n / 0x1_0000) + Bytes16(n % 0x1_0000)
  }

  function FromBigEndian32(s: Bytes): nat
    requires |s| == 4
  {
    Word16(s[0], s[1]) * 0x1_0000 + Word16(s[2], s[3])
  }

  /** The low 32 bits with the top bit set. */
  function Marked(n: nat): (r: nat)
    ensures TWO31 <= r < TWO32
  {
    var w := n % TWO32;
    if w >= TWO31 then w else w + TWO31
  }

  /** One byte for short lengths, four marked bytes for the rest. */
  function EncodeLength(n: nat): (r: Bytes)
    ensures |r| == 1 || |r| == 4
  {
    if n < 128 then [n] else BigEndian32(Marked(n))
  }

  /** The length at the front and how many bytes it took (section 3.4 of the FastCGI Specification 1.0). */
  function DecodeLength(s: Bytes): Option<(nat, nat)> {
    if s == [] then None
    else if s[0] < 128 then Some((s[0], 1))
    else if |s| < 4 then None
    else Some((FromBigEndian32(s[..4]) - TWO31, 4))
  }

  lemma {:induction false} WordRoundTrip(w: nat)
    requires w < 0x1_0000
    ensures Word16(Bytes16(w)[0], Bytes16(w)[1]) == w && (Bytes16(w)[0] >= 128 <==> w >= 0x8000)
  {
  }

  lemma {:induction false} BigEndianRoundTrip(n: nat)
    requires n < TWO32
    ensures FromBigEndian32(BigEndian32(n)) == n
    ensures BigEndian32(n)[0] >= 128 <==> n >= TWO31
  {
    var hi, lo := n / 0x1_0000, n % 0x1_0000;
    WordRoundTrip(hi);
    WordRoundTrip(lo);
    Halves(n, hi, lo);
  }

  lemma {:induction false} Halves(n: nat, hi: nat, lo: nat)
    requires hi == n / 0x1_0000 && lo == n % 0x1_0000
    ensures n == hi * 0x1_0000 + lo && (hi >= 0x8000 <==> n >= TWO31)
  {
  }

  /** Marking keeps exactly the numbers of 31 bits. */
  lemma {:induction false} MarkedIff(n: nat)
    ensures Marked(n) - TWO31 == n <==> n < TWO31
  {
  }

  lemma {:induction false} MarkedReads(m: nat, rest: Bytes)
    requires TWO31 <= m < TWO32
    ensures DecodeLength(BigEndian32(m) + rest) == Some((m - TWO31, 4))
  {
    BigEndianRoundTrip(m);
    FourFirst(BigEndian32(m), rest);
  }

  lemma {:induction false} FourFirst(a: Bytes, rest: Bytes)
    requires |a| == 4
    ensures (a + rest)[..4] == a && (a + rest)[0] == a[0]
  {
  }

  /** A length survives exactly when it fits in 31 bits. */
  lemma {:induction false} LengthRoundTripIff(n: nat, rest: Bytes)
    ensures DecodeLength(EncodeLength(n) + rest) == Some((n, |EncodeLength(n)|)) <==> n < TWO31
  {
    if n >= 128 {
      MarkedReads(Marked(n), rest);
      MarkedIff(n);
    } else {
      assert ([n] + rest)[0] == n;
    }
  }

  datatype Pair = Pair(name: Bytes, value: Bytes)

  /** appendNameValuePair. */
  function AppendPair(dst: Bytes, p: Pair): Bytes {
    dst + EncodeLength(|p.name|) + EncodeLength(|p.value|) + p.name + p.value
  }

  function EncodePairs(ps: seq<Pair>): Bytes {
    if ps == [] then [] else AppendPair(EncodePairs(ps[..|ps| - 1]), ps[|ps| - 1])
  }

  /** Reads pairs until the bytes are used up. */
  function DecodePairs(s: Bytes): Option<seq<Pair>>
    decreases |s|
  {
    if s == [] then Some([])
    else
      match DecodeLength(s)
      case None => None
      case Some((n, a)) =>
        (match DecodeLength(s[a..])
         case None => None
         case Some((v, b)) =>
           var at := a + b;
           if |s| < at + n + v then None
           else
             match DecodePairs(s[at + n + v..])
             case None => None
             case Some(ps) => Some([Pair(s[at..at + n], s[at + n..at + n + v])] + ps))
  }

  predicate Fits(p: Pair) {
    |p.name| < TWO31 && |p.value| < TWO31
  }

  lemma {:induction false} PairSlices(e1: Bytes, e2: Bytes, p: Pair, rest: Bytes, s: Bytes)
    requires s == [] + e1 + e2 + p.name + p.value + rest
    ensures s == e1 + (e2 + (p.name + (p.value + rest)))
    ensures s[|e1|..] == e2 + (p.name + (p.value + rest))
    ensures var at := |e1| + |e2|;
            && s[at..at + |p.name|] == p.name
            && s[at + |p.name|..at + |p.name| + |p.value|] == p.value
            && s[at + |p.name| + |p.value|..] == rest
  {
  }

  lemma {:induction false} DecodeFirst(p: Pair, rest: Bytes)
    requires Fits(p) && DecodePairs(rest).Some?
    ensures DecodePairs(AppendPair([], p) + rest) == Some([p] + DecodePairs(rest).value)
  {
    var s := AppendPair([], p) + rest;
    var e1, e2 := EncodeLength(|p.name|), EncodeLength(|p.value|);
    var at := |e1| + |e2|;
    PairSlices(e1, e2, p, rest, s);
    LengthRoundTripIff(|p.name|, e2 + (p.name + (p.value + rest)));
    LengthRoundTripIff(|p.value|, p.name + (p.value + rest));
  }

  lemma {:induction false} ConcatAfter(a: Bytes, b: Bytes, c: Bytes, d: Bytes, e: Bytes, f: Bytes)
    ensures a + b + c + d + e + f == a + (b + c + d + e + f)
  {
  }

  lemma {:induction false} AppendPairAfter(a: Bytes, b: Bytes, p: Pair)
    ensures AppendPair(a + b, p) == a + AppendPair(b, p)
  {
    ConcatAfter(a, b, EncodeLength(|p.name|), EncodeLength(|p.value|), p.name, p.value);
  }

  lemma {:induction false} EncodePairsCons(p: Pair, ps: seq<Pair>)
    ensures EncodePairs([p] + ps) == AppendPair([], p) + EncodePairs(ps)
    decreases |ps|
  {
    if ps == [] {
      assert [p] + ps == [p] && [p][..0] == [];
    } else {
      var n := |ps| - 1;
      EncodePairsCons(p, ps[..n]);
      var all := [p] + ps;
      assert all[..|ps|] == [p] + ps[..n] && all[|ps|] == ps[n];
      AppendPairAfter(AppendPair([], p), EncodePairs(ps[..n]), ps[n]);
    }
  }

  /** Decoding what was encoded gives the same pairs in the same order. */
  lemma {:induction false} PairsRoundTrip(ps: seq<Pair>)
    requires forall p :: p in ps ==> Fits(p)
    ensures DecodePairs(EncodePairs(ps)) == Some(ps)
    decreases |ps|
  {
    if ps != [] {
      var p, rest := ps[0], ps[1..];
      assert p in ps;
      assert ps == [p] + rest;
      PairsRoundTrip(rest);
      EncodePairsCons(p, rest);
      DecodeFirst(p, EncodePairs(rest));
    }
  }

  // ---------------------------------------------------------------------
  // Records
  // ---------------------------------------------------------------------

  const VERSION: Byte := 1
  const END_REQUEST: Byte := 3
  const STDOUT: Byte := 6

  /** A record on the wire (section 3.3 of the FastCGI Specification 1.0). */
  datatype Record = Record(typ: Byte, content: Bytes, padding: Bytes)

  predicate Sendable(r: Record) {
    |r.content| < 0x1_0000 && |r.padding| < 256
  }

  /** Eight header bytes; the content length is cut to 16 bits. */
  function Header(typ: Byte, contentLen: nat, padLen: Byte): (h: Bytes)
    ensures |h| == 8
  {
    var n := contentLen % 0x1_0000;
    [VERSION, typ, 0, 1, n / 256, n % 256, padLen, 0]
  }

  /** writeRecord never pads. */
  function WriteRecord(typ: Byte, content: Bytes): Bytes {
    Header(typ, |content|, 0) + content
  }

  function Wire(r: Record): Bytes
    requires Sendable(r)
  {
    Header(r.typ, |r.content|, |r.padding|) + r.content + r.padding
  }

  /** The first record of a byte stream and what follows it. */
  function NextRecord(s: Bytes): Option<(Record, Bytes)> {
    if |s| < 8 || s[0] != VERSION then None
    else
      var n: nat, pad: nat := Word16(s[4], s[5]), s[6];
      if |s| < 8 + n + pad then None
      else Some((Record(s[1], s[8..8 + n], s[8 + n..8 + n + pad]), s[8 + n + pad..]))
  }

  /** readFastCGIResponse: STDOUT content up to the end of the request, or an error. */
  function Response(s: Bytes, out: Bytes): Option<Bytes>
    decreases |s|
  {
    match NextRecord(s)
    case None => None
    case Some((r, rest)) =>
      if r.typ == END_REQUEST then Some(out)
      else if |rest| >= |s| then None
      else Response(rest, if r.typ == STDOUT then out + r.content else out)
  }

  lemma {:induction false} WireReads(r: Record, rest: Bytes)
    requires Sendable(r)
    ensures NextRecord(Wire(r) + rest) == Some((r, rest)) && |Wire(r)| >= 8
  {
    var s := Wire(r) + rest;
    var n, pad := |r.content|, |r.padding|;
    assert s == Header(r.typ, n, pad) + (r.content + (r.padding + rest));
    assert Word16(s[4], s[5]) == n;
    assert s[8..8 + n] == r.content && s[8 + n..8 + n + pad] == r.padding && s[8 + n + pad..] == rest;
  }

  /** A written record is read back whole exactly when its content fits in 16 bits. */
  lemma {:induction false} WriteRecordReadsIff(typ: Byte, content: Bytes, rest: Bytes)
    ensures NextRecord(WriteRecord(typ, content) + rest) == Some((Record(typ, content, []), rest)) <==>
        |content| < 0x1_0000
  {
    var s := WriteRecord(typ, content) + rest;
    if |content| < 0x1_0000 {
      var r := Record(typ, content, []);
      WireReads(r, rest);
      assert Wire(r) == WriteRecord(typ, content);
    } else {
      assert Word16(s[4], s[5]) == |content| % 0x1_0000;
    }
  }

  function WireAll(rs: seq<Record>): Bytes
    requires forall r :: r in rs ==> Sendable(r)
  {
    if rs == [] then [] else Wire(rs[0]) + WireAll(rs[1..])
  }

  /** What the records carry on STDOUT. */
  function Stdout(rs: seq<Record>): Bytes {
    if rs == [] then [] else (if rs[0].typ == STDOUT then rs[0].content else []) + Stdout(rs[1..])
  }

  lemma {:induction false} Regroup(a: Bytes, b: Bytes, c: Bytes)
    ensures (a + b) + c == a + (b + c) && a + [] == a
  {
  }

  lemma {:induction false} ResponseSkips(r: Record, rest: Bytes, out: Bytes)
    requires Sendable(r) && r.typ != END_REQUEST
    ensures Response(Wire(r) + rest, out) == Response(rest, if r.typ == STDOUT then out + r.content else out)
  {
    WireReads(r, rest);
  }

  /**
   However a payload is split into STDOUT records, padded, and mixed with other
   records, the reader returns exactly the payload at END_REQUEST, and looks at
   nothing behind it.
   */
  lemma {:induction false} ResponseIsPayload(rs: seq<Record>, end: Record, behind: Bytes, out: Bytes)
    requires forall r :: r in rs ==> Sendable(r) && r.typ != END_REQUEST
    requires Sendable(end) && end.typ == END_REQUEST
    ensures Response(WireAll(rs) + (Wire(end) + behind), out) == Some(out + Stdout(rs))
    decreases |rs|
  {
    var last := Wire(end) + behind;
    if rs == [] {
      assert WireAll(rs) + last == last && out + Stdout(rs) == out;
      WireReads(end, behind);
    } else {
      var r, rest := rs[0], rs[1..];
      assert r in rs;
      var out' := if r.typ == STDOUT then out + r.content else out;
      ResponseIsPayload(rest, end, behind, out');
      Regroup(Wire(r), WireAll(rest), last);
      ResponseSkips(r, WireAll(rest) + last, out);
      Regroup(out, if r.typ == STDOUT then r.content else [], Stdout(rest));
    }
  }

  /** The bytes of a record, one by one. */
  lemma {:induction false} WireBytes(r: Record)
    requires Sendable(r)
    ensures var n := |r.content|;
            Wire(r) == [1, r.typ, 0, 1, n / 256, n % 256, |r.padding|, 0] + r.content + r.padding
  {
  }

  lemma {:induction false} CutRecord(r: Record, n: nat)
    requires Sendable(r) && n < |Wire(r)|
    ensures NextRecord(Wire(r)[..n]) == None
  {
    var s := Wire(r)[..n];
    if n >= 8 {
      HeaderOf(r);
      assert s[4] == Wire(r)[4] && s[5] == Wire(r)[5] && s[6] == Wire(r)[6];
    }
  }

  lemma {:induction false} HeaderOf(r: Record)
    requires Sendable(r)
    ensures |Wire(r)| == 8 + |r.content| + |r.padding|
    ensures Word16(Wire(r)[4], Wire(r)[5]) == |r.content| && Wire(r)[6] == |r.padding|
  {
  }

  /** A response cut off anywhere before its last byte is an error, never a shorter payload. */
  lemma {:induction false} CutResponseIsError(rs: seq<Record>, end: Record, n: nat, out: Bytes)
    requires forall r :: r in rs ==> Sendable(r) && r.typ != END_REQUEST
    requires Sendable(end) && end.typ == END_REQUEST && n < |WireAll(rs) + Wire(end)|
    ensures Response((WireAll(rs) + Wire(end))[..n], out) == None
    decreases |rs|
  {
    if rs == [] {
      NothingAdded(Wire(end));
      CutRecord(end, n);
    } else {
      var r, rest := rs[0], rs[1..];
      assert r in rs;
      var w, tail := Wire(r), WireAll(rest) + Wire(end);
      Assoc(w, WireAll(rest), Wire(end));
      if n < |w| {
        assert (w + tail)[..n] == w[..n];
        CutRecord(r, n);
      } else {
        assert (w + tail)[..n] == w + tail[..n - |w|];
        ResponseSkips(r, tail[..n - |w|], out);
        CutResponseIsError(rest, end, n - |w|, if r.typ == STDOUT then out + r.content else out);
      }
    }
  }

  /** So is one in which a record of another version comes before the end. */
  lemma {:induction false} OtherVersionIsError(rs: seq<Record>, bad: Bytes, out: Bytes)
    requires forall r :: r in rs ==> Sendable(r) && r.typ != END_REQUEST
    requires bad != [] && bad[0] != 1
    ensures Response(WireAll(rs) + bad, out) == None
    decreases |rs|
  {
    if rs == [] {
      NothingAdded(bad);
    } else {
      var r, rest := rs[0], rs[1..];
      assert r in rs;
      Assoc(Wire(r), WireAll(rest), bad);
      ResponseSkips(r, WireAll(rest) + bad, out);
      OtherVersionIsError(rest, bad, if r.typ == STDOUT then out + r.content else out);
    }
  }

  lemma {:induction false} ExampleBytes(o: Record, e: Record, z: Record)
    requires o == Record(6, [72, 73], [0]) && e == Record(7, [33], []) && z == Record(3, [], [])
    ensures Wire(o) == [1, 6, 0, 1, 0, 2, 1, 0, 72, 73, 0]
    ensures Wire(e) == [1, 7, 0, 1, 0, 1, 0, 0, 33]
    ensures Wire(z) == [1, 3, 0, 1, 0, 0, 0, 0]
  {
    WireBytes(o);
    WireBytes(e);
    WireBytes(z);
  }

  /** A response on the wire: two bytes of output with one of padding, some error output, and the end. */
  lemma {:induction false} WireExample()
    ensures Response([1, 6, 0, 1, 0, 2, 1, 0, 72, 73, 0] + [1, 7, 0, 1, 0, 1, 0, 0, 33] + [1, 3, 0, 1, 0, 0, 0, 0], [])
            == Some([72, 73])
  {
    var o, e, z := Record(6, [72, 73], [0]), Record(7, [33], []), Record(3, [], []);
    var end: Bytes := Wire(z);
    ExampleBytes(o, e, z);
    ResponseSkips(o, Wire(e) + end, []);
    ResponseSkips(e, end, [72, 73]);
    NothingAdded(end);
    WireReads(z, []);
    Assoc(Wire(o), Wire(e), end);
    assert [] + [72, 73] == [72, 73];
  }

  /** Pairs on the wire: lengths first, then the name and the value. */
  lemma {:induction false} PairExample()
    ensures AppendPair([], Pair([65], [66, 67])) == [1, 2, 65, 66, 67]
    ensures EncodeLength(127) == [127] && EncodeLength(128) == [128, 0, 0, 128] && EncodeLength(300) == [128, 0, 1, 44]
  {
  }

  // ---------------------------------------------------------------------
  // The reader
  // ---------------------------------------------------------------------

  lemma {:induction false} BodySlices(s: Bytes, n: nat, pad: nat, content: Bytes, rest: Bytes)
    requires |s| >= 8 + n + pad && content == s[8..][..n + pad] && rest == s[8..][n + pad..]
    ensures content[..n] == s[8..8 + n] && rest == s[8 + n + pad..]
  {
  }

  /** A connection that hands out its bytes in pieces of any size. */
  class Source {
    var rest: Bytes

    constructor (s: Bytes)
      ensures rest == s
    {
      rest := s;
    }

    /** At least one byte, at most `max`; nothing and the end mark when none is left. */
    method Read(max: nat) returns (chunk: Bytes, atEnd: bool)
      requires max > 0
      modifies this
      ensures old(rest) == chunk + rest && |chunk| <= max
      ensures atEnd <==> old(rest) == []
      ensures !atEnd ==> |chunk| > 0
    {
      if rest == [] {
        return [], true;
      }
      var n: nat :| 1 <= n <= max && n <= |rest|;
      chunk, atEnd := rest[..n], false;
      rest := rest[n..];
    }

    /** ioReadFull. */
    method ReadFull(n: nat) returns (buf: Bytes, ok: bool)
      modifies this
      ensures ok <==> |old(rest)| >= n
      ensures ok ==> buf == old(rest)[..n] && rest == old(rest)[n..]
    {
      buf := [];
      while |buf| < n
        invariant |buf| <= n && old(rest) == buf + rest
        decreases n - |buf|
      {
        var chunk, atEnd := Read(n - |buf|);
        buf := buf + chunk;
        if atEnd {
          return buf, false;
        }
      }
      return buf, true;
    }

    /** The response loop, whatever pieces the reads return. */
    method ReadResponse() returns (out: Option<Bytes>)
      modifies this
      ensures out == Response(old(rest), [])
    {
      var acc: Bytes := [];
      while true
        invariant Response(rest, acc) == Response(old(rest), [])
        decreases |rest|
      {
        ghost var s := rest;
        var hdr, ok := ReadFull(8);
        if !ok {
          return None;
        }
        if hdr[0] != VERSION {
          return None;
        }
        var contentLen: nat, padLen: nat := Word16(hdr[4], hdr[5]), hdr[6];
        var content;
        content, ok := ReadFull(contentLen + padLen);
        assert hdr == s[..8];
        if !ok {
          return None;
        }
        BodySlices(s, contentLen, padLen, content, rest);
        if hdr[1] == STDOUT {
          acc := acc + content[..contentLen];
        } else if hdr[1] == END_REQUEST {
          return Some(acc);
        }
      }
    }
  }
}
