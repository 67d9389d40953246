/**
 * UTF-16 bodies: the decoder that turns byte pairs into code units, replaces
 * bad surrogates, and patches an odd last byte, against the byte-at-a-time
 * state machine of section 14.2.1 of the Encoding Standard.
 */
module Utf16 {
  import opened Prelude

  type unit = x: int | 0 <= x < 0x1_0000

  /** A Unicode scalar value, the content of a Rust `char`. */
  type scalar = x: int | 0 <= x < 0xD800 || 0xE000 <= x < 0x11_0000

  const REPLACEMENT: scalar := 0xFFFD

  predicate IsLead(u: unit) {
    0xD800 <= u <= 0xDBFF
  }

  predicate IsTrail(u: unit) {
    0xDC00 <= u <= 0xDFFF
  }

  function Combine(lead: unit, trail: unit): scalar
    requires IsLead(lead) && IsTrail(trail)
  {
    0x1_0000 + (lead - 0xD800) * 0x400 + (trail - 0xDC00)
  }

  /** `u16::from_be_bytes` or `u16::from_le_bytes`. */
  function FromBytes(a: byte, b: byte, be: bool): unit {
    if be then a * 256 + b else b * 256 + a
  }

  // ----- The code ---------------------------------------------------------

  /** The code units of the complete pairs; an odd last byte is left over. */
  function Words(data: seq<byte>, be: bool): seq<unit> {
    if |data| < 2 then [] else [FromBytes(data[0], data[1], be)] + Words(data[2..], be)
  }

  /** `String::from_utf16_lossy`. */
  function Lossy(words: seq<unit>): seq<scalar> {
    if words == [] then []
    else if !IsLead(words[0]) && !IsTrail(words[0]) then [words[0]] + Lossy(words[1..])
    else if IsLead(words[0]) && |words| > 1 && IsTrail(words[1])
    then [Combine(words[0], words[1])] + Lossy(words[2..])
    else [REPLACEMENT] + Lossy(words[1..])
  }

  predicate EndsInLead(words: seq<unit>) {
    words != [] && IsLead(words[|words| - 1])
  }

  function Patched(words: seq<unit>, odd: bool): seq<scalar> {
    if odd && !EndsInLead(words) then Lossy(words) + [REPLACEMENT] else Lossy(words)
  }

  function DecodeUtf16(data: seq<byte>, be: bool): seq<scalar> {
    Patched(Words(data, be), |data| % 2 == 1)
  }

  // ----- The standard -----------------------------------------------------

  /** The shared UTF-16 decoder, run over the rest of the input in replacement
      mode: each error emits U+FFFD.  `byte0` and `surrogate` are its lead byte
      and lead surrogate. */
  function Machine(input: seq<byte>, byte0: Option<byte>, surrogate: Option<unit>, be: bool): seq<scalar>
    decreases |input| + (if byte0.Some? then 1 else 0), surrogate.Some?, |input|
  {
    if input == [] then
      // End of queue: one error for whatever is pending, then finished.
      if byte0.Some? || surrogate.Some? then [REPLACEMENT] + Machine([], None, None, be) else []
    else if byte0.None? then Machine(input[1..], Some(input[0]), surrogate, be)
    else
      var u := FromBytes(byte0.value, input[0], be);
      match surrogate
      case Some(lead) =>
        if IsLead(lead) && IsTrail(u) then [Combine(lead, u)] + Machine(input[1..], None, None, be)
        else
          // Restore the two bytes and return error.
          var restored := if be then [u / 256, u % 256] else [u % 256, u / 256];
          [REPLACEMENT] + Machine(restored + input[1..], None, None, be)
      case None =>
        if IsLead(u) then Machine(input[1..], None, Some(u), be)
        else if IsTrail(u) then [REPLACEMENT] + Machine(input[1..], None, None, be)
        else [u] + Machine(input[1..], None, None, be)
  }

  function Pending(surrogate: Option<unit>): seq<unit> {
    match surrogate case None => [] case Some(u) => [u]
  }

  lemma RestoredBytes(a: byte, b: byte, be: bool)
    ensures var u := FromBytes(a, b, be);
            (if be then [u / 256, u % 256] else [u % 256, u / 256]) == [a, b]
  {
  }

  /** Two bytes of input are one code unit. */
  lemma TwoBytes(data: seq<byte>, surrogate: Option<unit>, be: bool)
    requires |data| >= 2 && (surrogate.Some? ==> IsLead(surrogate.value))
    ensures var u := FromBytes(data[0], data[1], be);
            Machine(data, None, surrogate, be) ==
              if surrogate.Some? && IsTrail(u) then [Combine(surrogate.value, u)] + Machine(data[2..], None, None, be)
              else if surrogate.Some? then [REPLACEMENT] + Machine(data, None, None, be)
              else if IsLead(u) then Machine(data[2..], None, Some(u), be)
              else if IsTrail(u) then [REPLACEMENT] + Machine(data[2..], None, None, be)
              else [u] + Machine(data[2..], None, None, be)
  {
    assert data[1..][1..] == data[2..];
    RestoredBytes(data[0], data[1], be);
    assert [data[0], data[1]] + data[1..][1..] == data;
  }

  /** At the end, whatever is pending is one error. */
  lemma LastBytes(data: seq<byte>, surrogate: Option<unit>, be: bool)
    requires |data| < 2 && (surrogate.Some? ==> IsLead(surrogate.value))
    ensures Machine(data, None, surrogate, be) == if data == [] && surrogate.None? then [] else [REPLACEMENT]
    ensures Patched(Pending(surrogate) + Words(data, be), |data| % 2 == 1) == Machine(data, None, surrogate, be)
  {
    assert Machine([], None, None, be) == [];
    if data != [] {
      assert data[1..] == [];
      assert Machine([], Some(data[0]), surrogate, be) == [REPLACEMENT];
    }
    var words := Pending(surrogate) + Words(data, be);
    assert words == Pending(surrogate);
    if surrogate.Some? {
      assert words[1..] == [];
      assert Lossy(words) == [REPLACEMENT] + Lossy(words[1..]);
    }
  }

  lemma FirstWord(data: seq<byte>, be: bool)
    requires |data| >= 2
    ensures Words(data, be) == [FromBytes(data[0], data[1], be)] + Words(data[2..], be)
  {
  }

  /** One step of the patched decoder: a pair, a lead surrogate alone, and any
      other code unit. */
  lemma PatchedPair(lead: unit, trail: unit, rest: seq<unit>, odd: bool)
    requires IsLead(lead) && IsTrail(trail)
    ensures Patched([lead] + ([trail] + rest), odd) == [Combine(lead, trail)] + Patched(rest, odd)
  {
    var words := [lead] + ([trail] + rest);
    assert words[2..] == rest;
  }

  lemma PatchedLone(lead: unit, next: unit, rest: seq<unit>, odd: bool)
    requires IsLead(lead) && !IsTrail(next)
    ensures Patched([lead] + ([next] + rest), odd) == [REPLACEMENT] + Patched([next] + rest, odd)
  {
    var words := [lead] + ([next] + rest);
    assert words[1..] == [next] + rest;
  }

  lemma PatchedUnit(u: unit, rest: seq<unit>, odd: bool)
    requires !IsLead(u)
    ensures Patched([u] + rest, odd) == [if IsTrail(u) then REPLACEMENT else u] + Patched(rest, odd)
  {
    var words := [u] + rest;
    assert words[1..] == rest;
  }

  /** With nothing pending. */
  lemma {:induction false} MachineFromStart(data: seq<byte>, be: bool)
    ensures Machine(data, None, None, be) == Patched(Words(data, be), |data| % 2 == 1)
    decreases |data|, 0
  {
    if |data| < 2 {
      LastBytes(data, None, be);
      assert Pending(None) + Words(data, be) == Words(data, be);
    } else {
      var u := FromBytes(data[0], data[1], be);
      TwoBytes(data, None, be);
      FirstWord(data, be);
      if IsLead(u) {
        MachineFromLead(u, data[2..], be);
      } else {
        hide Machine, Patched, Words;
        PatchedUnit(u, Words(data[2..], be), |data| % 2 == 1);
        MachineFromStart(data[2..], be);
      }
    }
  }

  lemma PairStep(lead: unit, data: seq<byte>, be: bool)
    requires IsLead(lead) && |data| >= 2 && IsTrail(FromBytes(data[0], data[1], be))
    requires Machine(data[2..], None, None, be) == Patched(Words(data[2..], be), |data| % 2 == 1)
    ensures Machine(data, None, Some(lead), be) == Patched([lead] + Words(data, be), |data| % 2 == 1)
  {
    TwoBytes(data, Some(lead), be);
    FirstWord(data, be);
    PatchedPair(lead, FromBytes(data[0], data[1], be), Words(data[2..], be), |data| % 2 == 1);
    hide *;
  }

  lemma LoneStep(lead: unit, data: seq<byte>, be: bool)
    requires IsLead(lead) && |data| >= 2 && !IsTrail(FromBytes(data[0], data[1], be))
    requires Machine(data, None, None, be) == Patched(Words(data, be), |data| % 2 == 1)
    ensures Machine(data, None, Some(lead), be) == Patched([lead] + Words(data, be), |data| % 2 == 1)
  {
    TwoBytes(data, Some(lead), be);
    FirstWord(data, be);
    PatchedLone(lead, FromBytes(data[0], data[1], be), Words(data[2..], be), |data| % 2 == 1);
    hide *;
  }

  /** With a lead surrogate pending. */
  lemma {:induction false} MachineFromLead(lead: unit, data: seq<byte>, be: bool)
    requires IsLead(lead)
    ensures Machine(data, None, Some(lead), be) == Patched([lead] + Words(data, be), |data| % 2 == 1)
    decreases |data|, 1
  {
    if |data| < 2 {
      LastBytes(data, Some(lead), be);
    } else if IsTrail(FromBytes(data[0], data[1], be)) {
      MachineFromStart(data[2..], be);
      PairStep(lead, data, be);
    } else {
      MachineFromStart(data, be);
      LoneStep(lead, data, be);
    }
  }

  lemma MachineIsPatched(data: seq<byte>, surrogate: Option<unit>, be: bool)
    requires surrogate.Some? ==> IsLead(surrogate.value)
    ensures Machine(data, None, surrogate, be) == Patched(Pending(surrogate) + Words(data, be), |data| % 2 == 1)
  {
    hide Machine, Patched, Words;
    match surrogate
    case Some(lead) => MachineFromLead(lead, data, be);
    case None =>
      MachineFromStart(data, be);
      assert Pending(None) + Words(data, be) == Words(data, be);
  }

  /** On every byte string and in both byte orders the shortcut decodes as the
      standard says, so a lead surrogate cut off in front of an odd byte is one
      error and not two. */
  lemma DecodeIsStandard(data: seq<byte>, be: bool)
    ensures DecodeUtf16(data, be) == Machine(data, None, None, be)
  {
    MachineIsPatched(data, None, be);
    assert Pending(None) + Words(data, be) == Words(data, be);
  }

  // ----- Round trip -------------------------------------------------------

  function Units(s: seq<scalar>): seq<unit> {
    if s == [] then []
    else if s[0] < 0x1_0000 then [s[0]] + Units(s[1..])
    else [0xD800 + (s[0] - 0x1_0000) / 0x400, 0xDC00 + (s[0] - 0x1_0000) % 0x400] + Units(s[1..])
  }

  function ToBytes(words: seq<unit>, be: bool): seq<byte> {
    if words == [] then []
    else (if be then [words[0] / 256, words[0] % 256] else [words[0] % 256, words[0] / 256]) + ToBytes(words[1..], be)
  }

  lemma {:induction false} WordsReadBack(words: seq<unit>, be: bool)
    ensures Words(ToBytes(words, be), be) == words
    ensures |ToBytes(words, be)| % 2 == 0
  {
    if words != [] {
      WordsReadBack(words[1..], be);
      assert ToBytes(words, be)[2..] == ToBytes(words[1..], be);
    }
  }

  lemma {:induction false} LossyReadsBack(s: seq<scalar>)
    ensures Lossy(Units(s)) == s
  {
    if s != [] {
      LossyReadsBack(s[1..]);
      if s[0] < 0x1_0000 {
        assert Units(s)[1..] == Units(s[1..]);
      } else {
        assert Units(s)[2..] == Units(s[1..]);
        assert Combine(Units(s)[0], Units(s)[1]) == s[0];
      }
    }
  }

  lemma EncodedDecodes(s: seq<scalar>, be: bool)
    ensures DecodeUtf16(ToBytes(Units(s), be), be) == s
  {
    WordsReadBack(Units(s), be);
    LossyReadsBack(s);
  }

  // ----- Choosing a decoder -----------------------------------------------

  const UTF8_LABELS := {"utf-8", "utf8", "unicode-1-1-utf-8", "unicode11utf8", "unicode20utf8", "x-unicode20utf8"}
  const UTF16BE_LABELS := {"unicodefffe", "utf-16be"}
  const UTF16LE_LABELS := {"csunicode", "iso-10646-ucs-2", "ucs-2", "unicode", "unicodefeff", "utf-16", "utf-16le"}

  /** The decoders that are library or system calls: lossy UTF-8, and the
      legacy charsets, which may fail; unknown labels fall back to UTF-8. */
  datatype Backends = Backends(
    utf8: seq<byte> -> seq<scalar>,
    known: string -> bool,
    legacy: (string, seq<byte>) -> Option<seq<scalar>>)

  predicate IsWhite(c: char) {
    c == ' ' || c == '\t' || c == '\n' || c == '\r' || c == 12 as char
  }

  function TrimStart(s: string): string {
    if s != [] && IsWhite(s[0]) then TrimStart(s[1..]) else s
  }

  function TrimEnd(s: string): string {
    if s != [] && IsWhite(s[|s| - 1]) then TrimEnd(s[..|s| - 1]) else s
  }

  /** A byte-order mark overrides the declared charset and is not data. */
  function ByBom(data: seq<byte>, charset: string): (seq<byte>, string) {
    if [0xEF, 0xBB, 0xBF] <= data then (data[3..], "utf-8")
    else if [0xFF, 0xFE] <= data then (data[2..], "utf-16le")
    else if [0xFE, 0xFF] <= data then (data[2..], "utf-16be")
    else (data, Lower(TrimEnd(TrimStart(charset))))
  }

  function DecodeBody(data: seq<byte>, charset: string, with: Backends): Option<seq<scalar>> {
    if data == [] then Some([])
    else
      var (rest, name) := ByBom(data, charset);
      if name in UTF8_LABELS then Some(with.utf8(rest))
      else if name in UTF16LE_LABELS then Some(DecodeUtf16(rest, false))
      else if name in UTF16BE_LABELS then Some(DecodeUtf16(rest, true))
      else if !with.known(name) then Some(with.utf8(rest))
      else with.legacy(name, rest)
  }

  function Bom(be: bool): seq<byte> {
    if be then [0xFE, 0xFF] else [0xFF, 0xFE]
  }

  /** A marked UTF-16 body decodes to the text it encodes, whatever charset the
      response declares. */
  lemma MarkedTextReadsBack(s: seq<scalar>, be: bool, charset: string, with: Backends)
    ensures DecodeBody(Bom(be) + ToBytes(Units(s), be), charset, with) == Some(s)
  {
    var data := Bom(be) + ToBytes(Units(s), be);
    assert data[2..] == ToBytes(Units(s), be);
    assert data[0] == Bom(be)[0] && data[1] == Bom(be)[1];
    EncodedDecodes(s, be);
    if be {
      LabelUtf16BE();
    } else {
      LabelUtf16LE();
    }
  }

  lemma LabelUtf16BE()
    ensures "utf-16be" in UTF16BE_LABELS && "utf-16be" !in UTF16LE_LABELS && "utf-16be" !in UTF8_LABELS
  {
    assert |"utf-16be"| == 8 && "utf-16be"[7] == 'e' && "utf-16be"[6] == 'b';
    assert "utf-16le"[6] == 'l';
  }

  lemma LabelUtf16LE()
    ensures "utf-16le" in UTF16LE_LABELS && "utf-16le" !in UTF8_LABELS
  {
    assert |"utf-16le"| == 8;
  }

  // ----- The declared charset ---------------------------------------------

  /** ASCII white space. */
  ghost predicate IsBlank(c: char) {
    c in {' ', '\t', '\n', '\r', 12 as char}
  }

  ghost predicate AllBlank(s: string) {
    forall i :: 0 <= i < |s| ==> IsBlank(s[i])
  }

  /** A label in its normal form: no capitals, and nothing to trim. */
  ghost predicate IsNormal(name: string) {
    && (forall i :: 0 <= i < |name| ==> !IsCapital(name[i]))
    && (name != [] ==> !IsBlank(name[0]) && !IsBlank(name[|name| - 1]))
  }

  lemma WhiteIsBlank(c: char)
    ensures IsWhite(c) <==> IsBlank(c)
  {
  }

  lemma {:induction false} TrimStartSkips(a: string, t: string)
    requires AllBlank(a) && (t != [] ==> !IsBlank(t[0]))
    ensures TrimStart(a + t) == t
  {
    if a == [] {
      assert a + t == t;
      if t != [] {
        WhiteIsBlank(t[0]);
      }
    } else {
      WhiteIsBlank(a[0]);
      assert (a + t)[1..] == a[1..] + t;
      TrimStartSkips(a[1..], t);
    }
  }

  lemma {:induction false} TrimEndSkips(t: string, b: string)
    requires AllBlank(b) && (t != [] ==> !IsBlank(t[|t| - 1]))
    ensures TrimEnd(t + b) == t
  {
    if b == [] {
      assert t + b == t;
      if t != [] {
        WhiteIsBlank(t[|t| - 1]);
      }
    } else {
      WhiteIsBlank(b[|b| - 1]);
      assert (t + b)[..|t + b| - 1] == t + b[..|b| - 1];
      TrimEndSkips(t, b[..|b| - 1]);
    }
  }

  lemma PaddingIsTrimmed(a: string, t: string, b: string)
    requires AllBlank(a) && AllBlank(b) && (t != [] ==> !IsBlank(t[0]) && !IsBlank(t[|t| - 1]))
    ensures TrimEnd(TrimStart(a + t + b)) == t
  {
    hide TrimStart, TrimEnd, IsBlank;
    if t == [] {
      assert a + t + b == (a + b) + [] && [] + [] == "";
      TrimStartSkips(a + b, []);
      TrimEndSkips([], []);
    } else {
      assert a + t + b == a + (t + b);
      TrimStartSkips(a, t + b);
      TrimEndSkips(t, b);
    }
  }

  lemma CasedIsBlank(c: char, d: char)
    requires Cased(c, d)
    ensures IsBlank(c) <==> IsBlank(d)
  {
  }

  /** White space around a label and the case of its letters do not matter. */
  lemma LabelIsRead(a: string, written: string, b: string, name: string)
    requires AllBlank(a) && AllBlank(b) && IsNormal(name) && SameLetters(written, name)
    ensures Lower(TrimEnd(TrimStart(a + written + b))) == name
  {
    LowerIgnoresCase(written, name);
    LowerKeeps(name);
    hide TrimStart, TrimEnd, IsBlank, Lower, AllBlank, Cased;
    if written != [] {
      CasedIsBlank(written[0], name[0]);
      CasedIsBlank(written[|written| - 1], name[|name| - 1]);
    }
    PaddingIsTrimmed(a, written, b);
  }

  ghost predicate IsMarked(data: seq<byte>) {
    [0xEF, 0xBB, 0xBF] <= data || [0xFF, 0xFE] <= data || [0xFE, 0xFF] <= data
  }

  /** A body without a mark is decoded as its declared charset says, however the
      label is padded and cased: the labels of UTF-16 and UTF-8, any other label
      that is known, and, as if it were UTF-8, one that is not. */
  lemma DeclaredCharsetDecides(
      data: seq<byte>, a: string, written: string, b: string, name: string, with: Backends)
    requires data != [] && !IsMarked(data)
    requires AllBlank(a) && AllBlank(b) && IsNormal(name) && SameLetters(written, name)
    ensures var r := DecodeBody(data, a + written + b, with);
            if name in UTF16LE_LABELS then r == Some(DecodeUtf16(data, false))
            else if name in UTF16BE_LABELS then r == Some(DecodeUtf16(data, true))
            else if name in UTF8_LABELS || !with.known(name) then r == Some(with.utf8(data))
            else r == with.legacy(name, data)
  {
    LabelIsRead(a, written, b, name);
    LabelsApart(name);
    hide TrimStart, TrimEnd, Lower, DecodeUtf16, SameLetters, AllBlank, IsNormal;
  }

  /** The labels of section 4.2 of the Encoding Standard for these encodings. */
  lemma StandardLabels()
    ensures forall s :: s in ["utf-16", "utf-16le", "unicode", "ucs-2", "iso-10646-ucs-2", "csunicode", "unicodefeff"]
              ==> s in UTF16LE_LABELS
    ensures forall s :: s in ["utf-16be", "unicodefffe"] ==> s in UTF16BE_LABELS
    ensures forall s :: s in
              ["utf-8", "utf8", "unicode-1-1-utf-8", "unicode11utf8", "unicode20utf8", "x-unicode20utf8"]
              ==> s in UTF8_LABELS
    ensures |UTF16LE_LABELS| <= 7 && |UTF16BE_LABELS| <= 2 && |UTF8_LABELS| <= 6
  {
  }

  lemma LabelsApart(name: string)
    ensures name in UTF8_LABELS ==> name !in UTF16LE_LABELS && name !in UTF16BE_LABELS
    ensures name in UTF16LE_LABELS ==> name !in UTF16BE_LABELS
  {
  }

  /** A UTF-8 mark makes the rest UTF-8, whatever charset the response declares. */
  lemma MarkedUtf8(rest: seq<byte>, charset: string, with: Backends)
    ensures DecodeBody([0xEF, 0xBB, 0xBF] + rest, charset, with) == Some(with.utf8(rest))
  {
    var data := [0xEF, 0xBB, 0xBF] + rest;
    assert data[3..] == rest && data[0] == 0xEF;
  }

  /** So text that is sent as UTF-16 and declared as such arrives, unless its
      first character happens to be a mark. */
  lemma DeclaredUtf16ReadsBack(s: seq<scalar>, be: bool, a: string, written: string, b: string, with: Backends)
    requires AllBlank(a) && AllBlank(b) && SameLetters(written, if be then "utf-16be" else "utf-16le")
    requires !IsMarked(ToBytes(Units(s), be))
    ensures DecodeBody(ToBytes(Units(s), be), a + written + b, with) == Some(s)
  {
    EncodedDecodes(s, be);
    NormalLabels();
    LabelUtf16BE();
    LabelUtf16LE();
    var data := ToBytes(Units(s), be);
    if data == [] {
      assert Words([], be) == [] && Lossy([]) == [];
    } else {
      hide *;
      DeclaredCharsetDecides(data, a, written, b, if be then "utf-16be" else "utf-16le", with);
    }
  }

  lemma NormalLabels()
    ensures IsNormal("utf-16be") && IsNormal("utf-16le")
  {
  }

  /** What the errors look like: a lead surrogate cut off before an odd byte, and
      a trail surrogate alone, are one U+FFFD each. */
  lemma ErrorsAreReplaced()
    ensures DecodeUtf16([0x3D, 0xD8, 0x41], false) == [0xFFFD]
    ensures DecodeUtf16([0xDC, 0x00], true) == [0xFFFD]
  {
    var cut, alone: seq<byte> := [0x3D, 0xD8, 0x41], [0xDC, 0x00];
    assert cut[2..] == [0x41] && Words([0x41], false) == [];
    assert Words(cut, false) == [0xD83D] && [0xD83D][1..] == [];
    assert Lossy([0xD83D]) == [0xFFFD] + Lossy([0xD83D][1..]);
    assert alone[2..] == [] && Words([], true) == [];
    assert Words(alone, true) == [0xDC00] && [0xDC00][1..] == [];
    assert Lossy([0xDC00]) == [0xFFFD] + Lossy([0xDC00][1..]);
  }
}
