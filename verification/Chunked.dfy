/**
 * The chunked transfer coding: the encoder the upload path writes by hand, and
 * a decoder that follows the algorithm of section 4.1.3 of RFC 7230, with
 * chunk extensions and trailers.
 */
module Chunked {
  import opened Prelude

  const CR: byte := 13
  const LF: byte := 10
  const SEMICOLON: byte := 59
  const CRLF: seq<byte> := [CR, LF]

  // ----- Encoder ----------------------------------------------------------

  function Digit(d: nat): byte
    requires d < 16
  {
    if d < 10 then 48 + d else 87 + d
  }

  /** `format!("{:x}", n)`. */
  function Hex(n: nat): seq<byte> {
    if n < 16 then [Digit(n)] else Hex(n / 16) + [Digit(n % 16)]
  }

  function Frame(chunk: seq<byte>): seq<byte> {
    Hex(|chunk|) + CRLF + chunk + CRLF
  }

  const TERMINATOR: seq<byte> := [48] + CRLF + CRLF

  function Frames(chunks: seq<seq<byte>>): seq<byte> {
    if chunks == [] then [] else Frame(chunks[0]) + Frames(chunks[1..])
  }

  function Encode(chunks: seq<seq<byte>>): seq<byte> {
    Frames(chunks) + TERMINATOR
  }

  // ----- Decoder ----------------------------------------------------------

  /** `rest` is what follows the body on the connection. */
  datatype Decoding = Incomplete | Malformed | Complete(body: seq<byte>, rest: seq<byte>)

  datatype SizeLine = NeedMore | Bad | Size(size: nat, rest: seq<byte>)

  predicate IsHexDigit(b: byte) {
    48 <= b <= 57 || 65 <= b <= 70 || 97 <= b <= 102
  }

  function DigitValue(b: byte): nat
    requires IsHexDigit(b)
  {
    if b <= 57 then b - 48 else if b <= 70 then b - 55 else b - 87
  }

  /** How many hexadecimal digits `s` starts with. */
  function Digits(s: seq<byte>): (d: nat)
    ensures d <= |s|
    ensures forall i :: 0 <= i < d ==> IsHexDigit(s[i])
    ensures d < |s| ==> !IsHexDigit(s[d])
  {
    if s == [] || !IsHexDigit(s[0]) then 0 else 1 + Digits(s[1..])
  }

  function HexValue(s: seq<byte>): nat
    requires forall i :: 0 <= i < |s| ==> IsHexDigit(s[i])
  {
    if s == [] then 0 else HexValue(s[..|s| - 1]) * 16 + DigitValue(s[|s| - 1])
  }

  function UntilCR(s: seq<byte>): (n: nat)
    ensures n <= |s|
    ensures forall i :: 0 <= i < n ==> s[i] != CR
    ensures n < |s| ==> s[n] == CR
  {
    if s == [] || s[0] == CR then 0 else 1 + UntilCR(s[1..])
  }

  /** Chunk size, extension if any, and CRLF. */
  function ReadSize(s: seq<byte>): SizeLine {
    var d := Digits(s);
    if d == |s| then NeedMore
    else if d == 0 || (s[d] != CR && s[d] != SEMICOLON) then Bad
    else
      var e := d + UntilCR(s[d..]);
      if e + 1 >= |s| then NeedMore
      else if s[e + 1] != LF then Bad
      else Size(HexValue(s[..d]), s[e + 2..])
  }

  /** Trailer fields, up to and including the empty line. */
  function ReadTrailers(s: seq<byte>): Decoding {
    var n := UntilCR(s);
    if n + 1 >= |s| then Incomplete
    else if s[n + 1] != LF then Malformed
    else if n == 0 then Complete([], s[2..])
    else ReadTrailers(s[n + 2..])
  }

  function Decode(s: seq<byte>): Decoding
    decreases |s|
  {
    match ReadSize(s)
    case NeedMore => Incomplete
    case Bad => Malformed
    case Size(0, rest) => ReadTrailers(rest)
    case Size(n, rest) =>
      if |rest| <= n || (|rest| == n + 1 && rest[n] == CR) then Incomplete
      else if rest[n] != CR || rest[n + 1] != LF then Malformed
      else
        SizeLineShrinks(s);
        match Decode(rest[n + 2..])
        case Complete(body, after) => Complete(rest[..n] + body, after)
        case other => other
  }

  lemma SizeLineShrinks(s: seq<byte>)
    ensures ReadSize(s).Size? ==> |ReadSize(s).rest| < |s|
  {
  }

  // ----- Round trip -------------------------------------------------------

  lemma {:induction false} HexDecodes(n: nat)
    ensures |Hex(n)| >= 1
    ensures forall i :: 0 <= i < |Hex(n)| ==> IsHexDigit(Hex(n)[i])
    ensures HexValue(Hex(n)) == n
  {
    if n < 16 {
      assert Hex(n)[..0] == [];
    } else {
      HexDecodes(n / 16);
      assert Hex(n)[..|Hex(n)| - 1] == Hex(n / 16);
    }
  }

  /** The sizes are written in lower case and without leading zeros. */
  lemma {:induction false} HexIsCanonical(n: nat)
    ensures forall i :: 0 <= i < |Hex(n)| ==> 48 <= Hex(n)[i] <= 57 || 97 <= Hex(n)[i] <= 102
    ensures |Hex(n)| >= 1 && (n > 0 ==> Hex(n)[0] != 48)
  {
    if n >= 16 {
      HexIsCanonical(n / 16);
    }
  }

  lemma {:induction false} DigitsThenOther(h: seq<byte>, t: seq<byte>)
    requires forall i :: 0 <= i < |h| ==> IsHexDigit(h[i])
    requires t != [] && !IsHexDigit(t[0])
    ensures Digits(h + t) == |h|
  {
    if h == [] {
      assert h + t == t;
    } else {
      assert (h + t)[1..] == h[1..] + t;
      DigitsThenOther(h[1..], t);
    }
  }

  lemma SizeReadsBack(n: nat, t: seq<byte>)
    ensures ReadSize(Hex(n) + CRLF + t) == Size(n, t)
  {
    HexDecodes(n);
    assert UntilCR(CRLF + t) == 0;
    hide Hex, Digits, HexValue, UntilCR, DigitValue;
    var h, s := Hex(n), Hex(n) + CRLF + t;
    assert s == h + (CRLF + t);
    DigitsThenOther(h, CRLF + t);
    assert s[|h|..] == CRLF + t && s[..|h|] == h;
    assert s[|h| + 2..] == t;
  }

  lemma FrameDecodes(chunk: seq<byte>, t: seq<byte>)
    requires chunk != []
    ensures Decode(Frame(chunk) + t) == match Decode(t)
              case Complete(body, after) => Complete(chunk + body, after)
              case other => other
  {
    hide Hex, ReadSize;
    var rest := chunk + CRLF + t;
    assert Frame(chunk) + t == Hex(|chunk|) + CRLF + rest;
    SizeReadsBack(|chunk|, rest);
    assert rest[|chunk| + 2..] == t && rest[..|chunk|] == chunk;
  }

  lemma TerminatorDecodes(t: seq<byte>)
    ensures Decode(TERMINATOR + t) == Complete([], t)
  {
    assert TERMINATOR + t == Hex(0) + CRLF + (CRLF + t);
    SizeReadsBack(0, CRLF + t);
    assert (CRLF + t)[2..] == t;
  }

  /** Whatever the chunks contain and whatever follows on the connection, the
      decoder finds exactly their concatenation and stops exactly at the end. */
  lemma {:induction false} EncodeDecodes(chunks: seq<seq<byte>>, t: seq<byte>)
    requires forall c :: c in chunks ==> c != []
    ensures Decode(Encode(chunks) + t) == Complete(Flatten(chunks), t)
  {
    hide Decode, Frame, Hex;
    if chunks == [] {
      assert Encode(chunks) + t == TERMINATOR + t;
      TerminatorDecodes(t);
    } else {
      assert chunks[0] in chunks && forall c :: c in chunks[1..] ==> c in chunks;
      EncodeDecodes(chunks[1..], t);
      assert Encode(chunks) + t == Frame(chunks[0]) + (Encode(chunks[1..]) + t);
      FrameDecodes(chunks[0], Encode(chunks[1..]) + t);
    }
  }

  // ----- Prefixes ---------------------------------------------------------

  lemma {:induction false} DigitsStable(s: seq<byte>, t: seq<byte>)
    ensures Digits(s) < |s| ==> Digits(s + t) == Digits(s)
  {
    if s != [] && IsHexDigit(s[0]) {
      assert (s + t)[1..] == s[1..] + t;
      DigitsStable(s[1..], t);
    }
  }

  lemma {:induction false} UntilCRStable(s: seq<byte>, t: seq<byte>)
    ensures UntilCR(s) < |s| ==> UntilCR(s + t) == UntilCR(s)
  {
    if s != [] && s[0] != CR {
      assert (s + t)[1..] == s[1..] + t;
      UntilCRStable(s[1..], t);
    }
  }

  lemma SuffixOf(s: seq<byte>, t: seq<byte>, i: nat)
    requires i <= |s|
    ensures (s + t)[i..] == s[i..] + t && (s + t)[..i] == s[..i]
  {
  }

  lemma ReadSizeStable(s: seq<byte>, t: seq<byte>)
    ensures ReadSize(s).Size? ==> ReadSize(s + t) == Size(ReadSize(s).size, ReadSize(s).rest + t)
    ensures ReadSize(s).Bad? ==> ReadSize(s + t).Bad?
  {
    hide Digits, UntilCR, HexValue, IsHexDigit, DigitValue;
    DigitsStable(s, t);
    var d := Digits(s);
    if d < |s| {
      UntilCRStable(s[d..], t);
      SuffixOf(s, t, d);
      var e := d + UntilCR(s[d..]);
      if e + 2 <= |s| {
        SuffixOf(s, t, e + 2);
      }
    }
  }

  /** A decision the decoder has reached does not change when more arrives. */
  ghost predicate Extends(a: Decoding, b: Decoding, t: seq<byte>) {
    match a
    case Incomplete => true
    case Malformed => b.Malformed?
    case Complete(body, rest) => b == Complete(body, rest + t)
  }

  lemma {:induction false} TrailersStable(s: seq<byte>, t: seq<byte>)
    ensures Extends(ReadTrailers(s), ReadTrailers(s + t), t)
    decreases |s|
  {
    UntilCRStable(s, t);
    var n := UntilCR(s);
    if n + 1 < |s| && s[n + 1] == LF {
      assert (s + t)[n + 2..] == s[n + 2..] + t;
      if n > 0 {
        TrailersStable(s[n + 2..], t);
      }
    }
  }

  lemma {:induction false} DecodeStable(s: seq<byte>, t: seq<byte>)
    ensures Extends(Decode(s), Decode(s + t), t)
    decreases |s|
  {
    hide ReadSize, ReadTrailers;
    ReadSizeStable(s, t);
    match ReadSize(s)
    case NeedMore =>
    case Bad =>
    case Size(n, rest) =>
      SizeLineShrinks(s);
      if n == 0 {
        TrailersStable(rest, t);
      } else if |rest| >= n + 2 {
        assert (rest + t)[..n] == rest[..n] && (rest + t)[n + 2..] == rest[n + 2..] + t;
        DecodeStable(rest[n + 2..], t);
      }
  }

  /** A chunked upload cut at any byte is seen to be incomplete. */
  lemma StrictPrefixIsIncomplete(chunks: seq<seq<byte>>, cut: nat)
    requires forall c :: c in chunks ==> c != []
    requires cut < |Encode(chunks)|
    ensures Decode(Encode(chunks)[..cut]) == Incomplete
  {
    var s, t := Encode(chunks)[..cut], Encode(chunks)[cut..];
    assert s + t == Encode(chunks) == Encode(chunks) + [];
    EncodeDecodes(chunks, []);
    DecodeStable(s, t);
  }
}
