/** The byte stream that `fingerprint` feeds to its hash, one length-prefixed input after the other. */
module Fingerprint {
  import opened Prelude

  /** `n.to_le_bytes()`, low byte first. */
  function LittleEndian(n: nat, width: nat): seq<byte>
    decreases width
  {
    if width == 0 then [] else [n % 256] + LittleEndian(n / 256, width - 1)
  }

  function Power256(width: nat): (p: nat)
    ensures p > 0
  {
    if width == 0 then 1 else 256 * Power256(width - 1)
  }

  function Prefixed(input: seq<byte>): seq<byte> {
    LittleEndian(|input|, 8) + input
  }

  function Stream(inputs: seq<seq<byte>>): seq<byte> {
    if inputs == [] then [] else Prefixed(inputs[0]) + Stream(inputs[1..])
  }

  lemma {:induction false} StreamSnoc(inputs: seq<seq<byte>>, input: seq<byte>)
    ensures Stream(inputs + [input]) == Stream(inputs) + Prefixed(input)
  {
    if inputs == [] {
      assert inputs + [input] == [input] && [input][1..] == [];
    } else {
      assert (inputs + [input])[1..] == inputs[1..] + [input];
      StreamSnoc(inputs[1..], input);
    }
  }

  /** The updates of the hash, in order. */
  method Feed(inputs: seq<seq<byte>>) returns (hashed: seq<byte>)
    ensures hashed == Stream(inputs)
  {
    hide LittleEndian;
    hashed := [];
    for i := 0 to |inputs|
      invariant hashed == Stream(inputs[..i])
    {
      assert inputs[..i + 1] == inputs[..i] + [inputs[i]];
      StreamSnoc(inputs[..i], inputs[i]);
      hashed := hashed + LittleEndian(|inputs[i]|, 8);
      hashed := hashed + inputs[i];
    }
    assert inputs[..|inputs|] == inputs;
  }

  lemma {:induction false} LittleEndianInjective(a: nat, b: nat, width: nat)
    requires a < Power256(width) && b < Power256(width)
    requires LittleEndian(a, width) == LittleEndian(b, width)
    ensures a == b
    decreases width
  {
    if width > 0 {
      var x, y := LittleEndian(a, width), LittleEndian(b, width);
      assert x[0] == a % 256 && y[0] == b % 256;
      assert x[1..] == LittleEndian(a / 256, width - 1) && y[1..] == LittleEndian(b / 256, width - 1);
      LittleEndianInjective(a / 256, b / 256, width - 1);
    }
  }

  lemma {:induction false} LittleEndianLength(n: nat, width: nat)
    ensures |LittleEndian(n, width)| == width
    decreases width
  {
    if width > 0 {
      LittleEndianLength(n / 256, width - 1);
    }
  }

  /** Byte `i` is the `i`-th digit of the number to the base 256, lowest first. */
  lemma {:induction false} LittleEndianDigits(n: nat, width: nat, i: nat)
    requires i < width
    ensures |LittleEndian(n, width)| == width && LittleEndian(n, width)[i] == n / Power256(i) % 256
    decreases width
  {
    LittleEndianLength(n, width);
    if i > 0 {
      LittleEndianDigits(n / 256, width - 1, i - 1);
      DivideTwice(n, Power256(i - 1));
    }
  }

  lemma DivideTwice(n: nat, d: nat)
    requires d > 0
    ensures n / 256 / d == n / (256 * d)
  {
    var q, r := n / 256 / d, n / 256 % d;
    assert n / 256 == q * d + r;
    assert n == 256 * (n / 256) + n % 256;
    assert 256 * (q * d + r) == q * (256 * d) + 256 * r;
    QuotientIs(n, 256 * d, q, 256 * r + n % 256);
  }

  lemma QuotientIs(n: nat, d: nat, q: nat, r: nat)
    requires n == q * d + r && r < d
    ensures n / d == q
  {
    var p := n / d;
    assert n == p * d + n % d;
    assert (p + 1) * d == p * d + d && (q + 1) * d == q * d + d;
    if p < q {
      ScaleUp(p + 1, q, d);
    } else if p > q {
      ScaleUp(q + 1, p, d);
    }
  }

  lemma ScaleUp(a: nat, b: nat, d: nat)
    requires a <= b
    ensures a * d <= b * d
  {
  }

  /** Each input is preceded by its length in eight bytes. */
  lemma PrefixIsLength(input: seq<byte>, i: nat)
    requires i < 8
    ensures |Prefixed(input)| == 8 + |input| && Prefixed(input)[8..] == input
    ensures Prefixed(input)[i] == |input| / Power256(i) % 256
  {
    LittleEndianDigits(|input|, 8, i);
  }

  ghost predicate Short(inputs: seq<seq<byte>>) {
    forall x :: x in inputs ==> |x| < Power256(8)
  }

  lemma FirstInputs(a: seq<byte>, s: seq<byte>, b: seq<byte>, t: seq<byte>)
    requires |a| < Power256(8) && |b| < Power256(8)
    requires Prefixed(a) + s == Prefixed(b) + t
    ensures a == b && s == t
  {
    var x, y := Prefixed(a) + s, Prefixed(b) + t;
    LittleEndianLength(|a|, 8);
    LittleEndianLength(|b|, 8);
    assert x[..8] == LittleEndian(|a|, 8) && y[..8] == LittleEndian(|b|, 8);
    LittleEndianInjective(|a|, |b|, 8);
    assert x[8..8 + |a|] == a && y[8..8 + |b|] == b;
    assert x[8 + |a|..] == s && y[8 + |b|..] == t;
  }

  /** Equal streams come from equal inputs: as many, the same ones, in the same order. */
  lemma {:induction false} StreamInjective(a: seq<seq<byte>>, b: seq<seq<byte>>)
    requires Short(a) && Short(b) && Stream(a) == Stream(b)
    ensures a == b
  {
    hide LittleEndian, Power256;
    if a != [] {
      LittleEndianLength(|a[0]|, 8);
    }
    if b != [] {
      LittleEndianLength(|b[0]|, 8);
    }
    if a != [] && b != [] {
      assert a[0] in a && b[0] in b;
      FirstInputs(a[0], Stream(a[1..]), b[0], Stream(b[1..]));
      assert (forall x :: x in a[1..] ==> x in a) && (forall x :: x in b[1..] ==> x in b);
      StreamInjective(a[1..], b[1..]);
      assert a == [a[0]] + a[1..] && b == [b[0]] + b[1..];
    }
  }
}
