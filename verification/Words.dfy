/** Bytes and 16-bit words, their numeric values, and byte order. */
module Words {
  import opened Bits

  type Byte = bv8
  type Word = bv16

  function Half(x: Word): Word {
    x >> 1
  }

  predicate Odd(x: Word) {
    x & 1 == 1
  }

  function Next(x: Word): Word {
    x + 1
  }

  /** The number a word stands for. */
  function Value(x: Word): nat
    decreases x
  {
    if x == 0 then 0 else HalfIsLess(x); 2 * Value(Half(x)) + if Odd(x) then 1 else 0
  }

  lemma HalfIsLess(x: Word)
    requires x != 0
    ensures Half(x) < x
  {
  }

  lemma NextOfEven(x: Word)
    requires !Odd(x)
    ensures Half(Next(x)) == Half(x) && Odd(Next(x)) && Next(x) != 0
  {
  }

  lemma NextOfOdd(x: Word)
    requires Odd(x) && x != 0xFFFF
    ensures Half(Next(x)) == Next(Half(x)) && !Odd(Next(x)) && Next(x) != 0 && x != 0
  {
  }

  lemma HalfIsSmall(x: Word)
    ensures Half(x) != 0xFFFF && Half(0) == 0 && !Odd(0)
  {
  }

  lemma Unfold(x: Word)
    ensures Value(x) == 2 * Value(Half(x)) + if Odd(x) then 1 else 0
  {
  }

  lemma {:induction false} ValueOfNext(x: Word)
    ensures Value(Next(x)) == if x == 0xFFFF then 0 else Value(x) + 1
    decreases x
  {
    hide Half, Odd, Next;
    if x == 0xFFFF {
      assert Next(x) == 0 by { NextWraps(); }
    } else {
      Unfold(x);
      Unfold(Next(x));
      if Odd(x) {
        NextOfOdd(x);
        HalfIsLess(x);
        HalfIsSmall(x);
        ValueOfNext(Half(x));
      } else {
        NextOfEven(x);
      }
    }
  }

  /** A counter that wraps around counts modulo 65536. */
  lemma NextCount(c: Word, uses: nat)
    requires Value(c) == uses % 65536
    ensures Value(Next(c)) == (uses + 1) % 65536
  {
    hide Value, Next;
    ValueOfNext(c);
    FullValue(c);
  }

  lemma NextWraps()
    ensures Next(0xFFFF) == 0
  {
  }

  function Previous(x: Word): Word {
    x - 1
  }

  lemma PreviousIsBefore(x: Word)
    requires x != 0
    ensures Next(Previous(x)) == x && Previous(x) != 0xFFFF
  {
  }

  lemma ValueOfPrevious(x: Word)
    requires x != 0
    ensures Value(Previous(x)) == Value(x) - 1
  {
    hide Next, Previous, Value;
    PreviousIsBefore(x);
    ValueOfNext(Previous(x));
  }

  // ---------- Masks ----------

  function Masked(x: Word, m: Word): Word {
    x & m
  }

  function OneMore(m: Word): Word {
    (m << 1) | 1
  }

  /** The mask of the n lowest bits. */
  function LowMask(n: nat): Word {
    if n == 0 then 0 else OneMore(LowMask(n - 1))
  }

  lemma MaskedHalves(x: Word, m: Word)
    requires m < 0x8000
    ensures Half(Masked(x, OneMore(m))) == Masked(Half(x), m)
    ensures Odd(Masked(x, OneMore(m))) == Odd(x)
  {
  }

  lemma MaskOfNothing(x: Word)
    ensures Masked(x, 0) == 0
  {
  }

  lemma LowMasks()
    ensures LowMask(0) == 0 && LowMask(1) == 0x1 && LowMask(2) == 0x3 && LowMask(3) == 0x7 && LowMask(4) == 0xF
    ensures LowMask(5) == 0x1F && LowMask(6) == 0x3F && LowMask(7) == 0x7F && LowMask(8) == 0xFF
    ensures LowMask(9) == 0x1FF && LowMask(10) == 0x3FF && LowMask(11) == 0x7FF && LowMask(12) == 0xFFF
    ensures LowMask(13) == 0x1FFF && LowMask(14) == 0x3FFF && LowMask(15) == 0x7FFF && LowMask(16) == 0xFFFF
  {
  }

  lemma LowMaskIsSmall(n: nat)
    requires n < 16
    ensures LowMask(n) < 0x8000
  {
    LowMasks();
  }

  /** Masking with n ones is the remainder by the n-th power of two. */
  lemma {:induction false} MaskIsRemainder(x: Word, n: nat)
    requires n <= 16
    ensures Value(Masked(x, LowMask(n))) == Value(x) % Pow2(n)
    decreases n
  {
    hide Half, Odd, Masked, OneMore, Value;
    if n == 0 {
      MaskOfNothing(x);
      ValueOfZero();
    } else {
      var m := LowMask(n - 1);
      LowMaskIsSmall(n - 1);
      MaskIsRemainder(Half(x), n - 1);
      MaskedHalves(x, m);
      Unfold(x);
      Unfold(Masked(x, OneMore(m)));
      HalfMod(Value(x), Pow2(n - 1));
    }
  }

  lemma ValueOfZero()
    ensures Value(0) == 0
  {
  }

  // ---------- Numbers to words ----------

  function Doubled(w: Word, odd: bool): Word {
    (w << 1) | (if odd then 1 else 0)
  }

  /** The word for a number, reduced to sixteen bits. */
  function FromNat(n: nat): Word {
    if n == 0 then 0 else Doubled(FromNat(n / 2), n % 2 == 1)
  }

  lemma DoubledHalves(w: Word, odd: bool)
    ensures Half(Doubled(w, odd)) == Masked(w, 0x7FFF)
    ensures Odd(Doubled(w, odd)) <==> odd
  {
  }

  lemma WholeHalves(x: Word)
    ensures Doubled(Half(x), Odd(x)) == x
  {
  }

  /** Conversion to a word wraps around at 65536. */
  lemma {:induction false} ValueOfFromNat(n: nat)
    ensures Value(FromNat(n)) == n % 65536
  {
    hide Half, Odd, Doubled, Masked, Value, Pow2;
    if n == 0 {
      ValueOfZero();
    } else {
      var w := FromNat(n / 2);
      ValueOfFromNat(n / 2);
      DoubledHalves(w, n % 2 == 1);
      Unfold(FromNat(n));
      LowMasks();
      MaskIsRemainder(w, 15);
      Powers();
      WrappedHalf(n);
    }
  }

  lemma WrappedHalf(n: nat)
    ensures n % 65536 == 2 * (((n / 2) % 65536) % 32768) + n % 2
  {
  }

  lemma Powers()
    ensures Pow2(8) == 256 && Pow2(11) == 2048 && Pow2(14) == 16384 && Pow2(15) == 32768 && Pow2(16) == 65536
  {
  }

  lemma FullValue(x: Word)
    ensures Value(x) == 65535 <==> x == 0xFFFF
    ensures Value(x) < 65536
  {
    hide Value, Next, FromNat;
    ValueBelow(x);
    ValueOfNext(x);
    ValueBelow(Next(x));
    MaxValue();
  }

  lemma ValueBelow(x: Word)
    ensures Value(x) < 65536
  {
    hide Value, Masked, Pow2;
    WholeMask(x);
    LowMasks();
    MaskIsRemainder(x, 16);
    Powers();
  }

  lemma WholeMask(x: Word)
    ensures Masked(x, 0xFFFF) == x
  {
  }

  lemma MaxValue()
    ensures Value(0xFFFF) == 65535
  {
    hide Value, Next, FromNat;
    var top := FromNat(65535);
    ValueOfFromNat(65535);
    ValueOfNext(top);
    ValueBelow(Next(top));
  }

  /** Words with the same value are the same word. */
  lemma {:induction false} ValueIsInjective(x: Word, y: Word)
    requires Value(x) == Value(y)
    ensures x == y
    decreases x
  {
    hide Half, Odd, Doubled;
    if x != 0 && y != 0 {
      Unfold(x);
      Unfold(y);
      HalfIsLess(x);
      ValueIsInjective(Half(x), Half(y));
      WholeHalves(x);
      WholeHalves(y);
    } else {
      ZeroValue(x);
      ZeroValue(y);
    }
  }

  lemma {:induction false} ZeroValue(x: Word)
    ensures Value(x) == 0 <==> x == 0
    decreases x
  {
    hide Half, Odd, Doubled;
    if x != 0 {
      HalfIsLess(x);
      ZeroValue(Half(x));
      WholeHalves(x);
      ZeroDoubled();
    }
  }

  lemma ZeroDoubled()
    ensures Doubled(0, false) == 0
  {
  }

  // ---------- Bytes ----------

  function ByteToWord(b: Byte): Word {
    b as Word
  }

  function ByteValue(b: Byte): nat {
    Value(ByteToWord(b))
  }

  function ByteFromNat(n: nat): Byte {
    LowByte(FromNat(n))
  }

  function LowByte(x: Word): Byte {
    (x & 0xFF) as Byte
  }

  function HighByte(x: Word): Byte {
    (x >> 8) as Byte
  }

  /** (high << 8) | low, as both decoders compute it. */
  function Join(high: Byte, low: Byte): Word {
    ((high as Word) << 8) | (low as Word)
  }

  lemma ByteOfLow(x: Word)
    ensures ByteToWord(LowByte(x)) == Masked(x, 0xFF)
  {
  }

  lemma ValueOfByte(n: nat)
    requires n < 256
    ensures ByteValue(ByteFromNat(n)) == n
  {
    hide Value, Masked, ByteToWord, LowByte, Pow2;
    ValueOfFromNat(n);
    ByteOfLow(FromNat(n));
    LowMasks();
    MaskIsRemainder(FromNat(n), 8);
    Powers();
  }

  // ---------- Byte order ----------

  /** A stored double: eight bytes in the order of the little-endian host, otherwise uninterpreted. */
  type Double = s: seq<Byte> | |s| == 8 witness [0, 0, 0, 0, 0, 0, 0, 0]

  function Reversed(s: seq<Byte>): (r: seq<Byte>)
    ensures |r| == |s|
  {
    seq(|s|, i requires 0 <= i < |s| => s[|s| - 1 - i])
  }

  lemma ReversedTwice(s: seq<Byte>)
    ensures Reversed(Reversed(s)) == s
  {
  }

  /** The double stored most significant byte first at an offset. */
  function DoubleAt(data: seq<Byte>, offset: nat): Double
    requires offset + 8 <= |data|
  {
    Reversed(data[offset..offset + 8])
  }

  /** Doubles in network order, one after the other. */
  function BigEndian(ds: seq<Double>): (bytes: seq<Byte>)
    ensures |bytes| == 8 * |ds|
  {
    if ds == [] then [] else Reversed(ds[0]) + BigEndian(ds[1..])
  }

  lemma {:induction false} BigEndianAppend(ds: seq<Double>, d: Double)
    ensures BigEndian(ds + [d]) == BigEndian(ds) + Reversed(d)
  {
    hide Reversed;
    if ds == [] {
      assert [d][1..] == [];
      assert BigEndian([d]) == Reversed(d) + BigEndian([]);
    } else {
      assert (ds + [d])[1..] == ds[1..] + [d];
      BigEndianAppend(ds[1..], d);
    }
  }

  lemma {:induction false} DoublesReadBack(before: seq<Byte>, ds: seq<Double>, after: seq<Byte>, i: nat)
    requires i < |ds|
    ensures DoubleAt(before + BigEndian(ds) + after, |before| + 8 * i) == ds[i]
    decreases |ds|
  {
    hide Reversed;
    var data := before + BigEndian(ds) + after;
    var first := Reversed(ds[0]);
    assert data == before + first + (BigEndian(ds[1..]) + after);
    if i == 0 {
      assert data[|before|..|before| + 8] == first;
      ReversedTwice(ds[0]);
    } else {
      assert data == (before + first) + BigEndian(ds[1..]) + after;
      DoublesReadBack(before + first, ds[1..], after, i - 1);
    }
  }

  lemma ReadFront(ds: seq<Double>, after: seq<Byte>, i: nat)
    requires i < |ds|
    ensures DoubleAt(BigEndian(ds) + after, 8 * i) == ds[i]
  {
    hide DoubleAt, BigEndian;
    DoublesReadBack([], ds, after, i);
    assert [] + BigEndian(ds) + after == BigEndian(ds) + after;
  }

  lemma BytesOfDouble(data: seq<Byte>, offset: nat)
    requires offset + 8 <= |data|
    ensures Reversed(DoubleAt(data, offset)) == data[offset..offset + 8]
  {
  }
}
