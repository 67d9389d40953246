/** The evenly spaced sample of four-byte GB18030 forms. */
module Gb18030 {
  import opened Prelude

  const POINTERS: nat := 126 * 10 * 126 * 10

  /** The pointer index of sample `index`; the source computes it in 64 bits. */
  function PointerAt(index: nat, count: nat): nat {
    if count <= 1 then 0 else index * (POINTERS - 1) / (count - 1)
  }

  /** `as u8`. */
  function LowByte(x: nat): byte {
    x % 256
  }

  function FourBytes(pointer: nat): seq<byte> {
    [LowByte(0x81 + LowByte(pointer / 12600)), LowByte(0x30 + LowByte((pointer / 1260) % 10)),
     LowByte(0x81 + LowByte((pointer / 10) % 126)), LowByte(0x30 + LowByte(pointer % 10))]
  }

  function FourByteSample(count: nat): seq<seq<byte>> {
    seq(count, i requires 0 <= i < count => FourBytes(PointerAt(i, count)))
  }

  /** The shape of a four-byte form, and its pointer, section 10.2.1 of the Encoding Standard. */
  predicate IsFourByteForm(f: seq<byte>) {
    && |f| == 4
    && 0x81 <= f[0] <= 0xFE && 0x30 <= f[1] <= 0x39
    && 0x81 <= f[2] <= 0xFE && 0x30 <= f[3] <= 0x39
  }

  function StandardPointer(f: seq<byte>): nat
    requires IsFourByteForm(f)
  {
    var a: int, b: int, c: int, d: int := f[0], f[1], f[2], f[3];
    (a - 0x81) * (10 * 126 * 10) + (b - 0x30) * (10 * 126) + (c - 0x81) * 10 + d - 0x30
  }

  /** The four digits of a pointer, to the bases 126, 10, 126 and 10. */
  lemma MixedDigits(p: nat)
    ensures p == 10 * (p / 10) + p % 10
    ensures p / 10 == 126 * (p / 1260) + (p / 10) % 126
    ensures p / 1260 == 10 * (p / 12600) + (p / 1260) % 10
  {
    assert (p / 10) / 126 == p / 1260;
    assert (p / 1260) / 10 == p / 12600;
  }

  lemma SmallBytes(x: nat, base: nat)
    requires base + x < 256
    ensures LowByte(base + LowByte(x)) == base + x
  {
  }

  lemma FormHasItsPointer(pointer: nat)
    requires pointer < POINTERS
    ensures IsFourByteForm(FourBytes(pointer)) && StandardPointer(FourBytes(pointer)) == pointer
  {
    hide LowByte;
    assert pointer / 12600 < 126;
    SmallBytes(pointer / 12600, 0x81);
    SmallBytes((pointer / 1260) % 10, 0x30);
    SmallBytes((pointer / 10) % 126, 0x81);
    SmallBytes(pointer % 10, 0x30);
    MixedDigits(pointer);
  }

  lemma ScaleUp(a: nat, b: nat, d: nat)
    requires a <= b
    ensures a * d <= b * d
  {
  }

  lemma DivisionAtLeast(y: nat, d: nat, q: nat)
    requires 0 < d && y >= q * d
    ensures y / d >= q
  {
    assert y < (y / d + 1) * d by {
      assert (y / d + 1) * d == y / d * d + d;
    }
    if y / d < q {
      ScaleUp(y / d + 1, q, d);
    }
  }

  lemma DivisionSteps(x: nat, y: nat, d: nat)
    requires 0 < d && x + d <= y
    ensures x / d < y / d
  {
    assert (x / d + 1) * d == x / d * d + d;
    DivisionAtLeast(y, d, x / d + 1);
  }

  lemma DivisionAtMost(y: nat, d: nat, q: nat)
    requires 0 < d && y < (q + 1) * d
    ensures y / d <= q
  {
    assert y / d * d <= y;
    if y / d > q {
      ScaleUp(q + 1, y / d, d);
    }
  }

  lemma ExactQuotient(a: nat, d: nat)
    requires d > 0
    ensures a * d / d == a
  {
    assert (a + 1) * d == a * d + d;
    DivisionAtLeast(a * d, d, a);
    DivisionAtMost(a * d, d, a);
  }

  lemma PointersIncrease(count: nat, index: nat)
    requires 2 <= count <= POINTERS && index + 1 < count
    ensures PointerAt(index, count) < PointerAt(index + 1, count)
  {
    assert (index + 1) * (POINTERS - 1) == index * (POINTERS - 1) + (POINTERS - 1);
    DivisionSteps(index * (POINTERS - 1), (index + 1) * (POINTERS - 1), count - 1);
  }

  /** The sample starts at the first pointer and ends at the last. */
  lemma PointerEnds(count: nat)
    requires 2 <= count <= POINTERS
    ensures PointerAt(0, count) == 0 && PointerAt(count - 1, count) == POINTERS - 1
  {
    ExactQuotient(POINTERS - 1, count - 1);
    assert (count - 1) * (POINTERS - 1) == (POINTERS - 1) * (count - 1);
  }

  lemma {:induction false} PointersSpread(count: nat, i: nat, j: nat)
    requires 2 <= count <= POINTERS && i < j < count
    ensures PointerAt(i, count) < PointerAt(j, count)
    decreases j - i
  {
    PointersIncrease(count, j - 1);
    if i + 1 < j {
      PointersSpread(count, i, j - 1);
    }
  }

  /** The sample is even: sample `index` is the last pointer at or before its
      exact share of the way from the first to the last. */
  lemma SampleIsEven(count: nat, index: nat)
    requires 2 <= count <= POINTERS && index < count
    ensures PointerAt(index, count) * (count - 1) <= index * (POINTERS - 1)
    ensures index * (POINTERS - 1) < (PointerAt(index, count) + 1) * (count - 1)
  {
    hide FourBytes, IsFourByteForm;
    Quotient(index * (POINTERS - 1), count - 1);
  }

  lemma Quotient(x: nat, d: nat)
    requires d > 0
    ensures x / d * d <= x < (x / d + 1) * d
  {
    assert (x / d + 1) * d == x / d * d + d;
  }

  /** A sample of one is the first form, and an empty sample is empty. */
  lemma SmallSamples()
    ensures FourByteSample(0) == [] && FourByteSample(1) == [[0x81, 0x30, 0x81, 0x30]]
  {
    assert FourBytes(0) == [0x81, 0x30, 0x81, 0x30];
  }

  /** Every sample is a legal form whose standard pointer is the one it was made
      from, the pointers are strictly increasing from the first to the last of
      the grid, and the full count lists every pointer once. */
  lemma SampleIsSpread(count: nat)
    requires 2 <= count <= POINTERS
    ensures var s := FourByteSample(count);
            && (forall i :: 0 <= i < count ==> IsFourByteForm(s[i]) && StandardPointer(s[i]) == PointerAt(i, count))
            && (forall i, j :: 0 <= i < j < count ==> StandardPointer(s[i]) < StandardPointer(s[j]))
            && StandardPointer(s[0]) == 0 && StandardPointer(s[count - 1]) == POINTERS - 1
    ensures count == POINTERS ==>
              forall i :: 0 <= i < count ==> StandardPointer(FourByteSample(count)[i]) == i
  {
    var s := FourByteSample(count);
    PointerEnds(count);
    forall i | 0 <= i < count
      ensures IsFourByteForm(s[i]) && StandardPointer(s[i]) == PointerAt(i, count)
      ensures count == POINTERS ==> PointerAt(i, count) == i
    {
      if i < count - 1 {
        PointersSpread(count, i, count - 1);
      }
      FormHasItsPointer(PointerAt(i, count));
      if count == POINTERS {
        ExactQuotient(i, count - 1);
      }
    }
    forall i, j | 0 <= i < j < count ensures StandardPointer(s[i]) < StandardPointer(s[j]) {
      PointersSpread(count, i, j);
    }
  }
}
