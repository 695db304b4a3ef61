/** arm_host/source/lwip/inet_chksum.c: the three versions of
    lwip_standard_chksum, and inet_chksum. Memory is a byte sequence together
    with the address of its first byte, so that alignment is real. */
module InetChksum {
  import opened Words
  import opened InetSum

  predicate Aligned(addr: nat, i: nat, n: nat)
    requires n > 0
  {
    (addr + i) % n == 0
  }

  /** A 16-bit load. The machine demands an even address. */
  function Load16(data: seq<Byte>, addr: nat, i: nat): (r: U16)
    requires i + 2 <= |data| && Aligned(addr, i, 2)
  {
    Le16(data[i], data[i + 1])
  }

  /** A 32-bit load. The machine demands a multiple of 4. */
  function Load32(data: seq<Byte>, addr: nat, i: nat): (r: U32)
    requires i + 4 <= |data| && Aligned(addr, i, 4)
  {
    Le32(data[i], data[i + 1], data[i + 2], data[i + 3])
  }

  lemma WSumNone(s: seq<Byte>, hi: bool)
    ensures WSum(s[..0], hi) == 0
  {}

  lemma WSumUpTo(s: seq<Byte>, i: nat, j: nat, hi: bool)
    requires i <= j <= |s|
    ensures WSum(s[..j], hi) == WSum(s[..i], hi) + WSum(s[i..j], if Odd(i) then !hi else hi)
  {
    assert s[..j] == s[..i] + s[i..j];
    WSumConcat(s[..i], s[i..j], hi);
  }

  lemma WSumOne(s: seq<Byte>, i: nat, hi: bool)
    requires i < |s|
    ensures WSum(s[..i + 1], hi) ==
            WSum(s[..i], hi) + (if Odd(i) == hi then s[i] else 0x100 * (s[i] as int))
  {
    WSumUpTo(s, i, i + 1, hi);
    assert s[i..i + 1][1..] == [];
  }

  lemma WSumTwo(s: seq<Byte>, i: nat, hi: bool)
    requires i + 2 <= |s|
    ensures WSum(s[..i + 2], hi) ==
            WSum(s[..i], hi) + (if Odd(i) == hi then Le16(s[i], s[i + 1]) else Le16(s[i + 1], s[i]))
  {
    WSumOne(s, i, hi);
    WSumOne(s, i + 1, hi);
  }

  lemma WSumNoWrap(s: seq<Byte>, i: nat, hi: bool)
    requires i <= |s| <= 0x2_0000
    ensures WSum(s[..i], hi) <= 0xFFFF * 0x1_0000
  {
    WSumBound(s[..i], hi);
  }

  lemma SumFits(s: seq<Byte>, hi: bool)
    requires |s| <= 0x2_0000
    ensures WSum(s, hi) <= 0xFFFF * 0x1_0000
  {
    WSumBound(s, hi);
  }

  /** How versions 2 and 3 end: two folds, a byte swap when the first byte was
      summed as the heavy one, and the conversion to 16 bits. */
  function FoldSwap(sum: U32, hi: bool): (r: U16) {
    (if hi then SwapWord(Fold(Fold(sum))) else Fold(Fold(sum))) % 0x1_0000
  }

  lemma FoldSwapExact(sum: U32, data: seq<Byte>, hi: bool)
    requires Rep(sum, WSum(data, hi))
    ensures Fold(Fold(sum)) <= 0xFFFF
    ensures FoldSwap(sum, hi) == HostSum(data)
  {
    hide Fold, SwapWord, HostSum, WSum, Rep;
    RepFoldTwice(sum, WSum(data, hi));
    var f := Fold(Fold(sum));
    if hi {
      RepSwap(f, WSum(data, true));
      WSumShift(data, true);
      RepSym(WSum(data, false), 0x100 * WSum(data, true));
      RepTrans(SwapWord(f), 0x100 * WSum(data, true), WSum(data, false));
      HostSumExact(SwapWord(f), data);
    } else {
      HostSumExact(f, data);
    }
  }

  lemma AddNoWrap(a: U32, b: nat)
    requires a + b < 0x1_0000_0000
    ensures Add32(a, b) == a + b
  {}

  /** A second fold that is skipped would have changed nothing. */
  lemma FoldSkipped(acc: U32)
    requires acc / 0x1_0000 == 0
    ensures Fold(acc) == acc
  {}

  lemma SwapOfFolds(acc: U32)
    ensures SwapWord(Fold(Fold(acc))) == FoldSwap(acc, true)
  {
    hide Fold, SwapWord;
  }

  /** Version 1: byte pairs, first byte most significant. */
  method StandardChksum1(data: seq<Byte>) returns (r: U16)
    requires |data| <= 0x2_0000
    ensures r == HostSum(data)
  {
    WSumNone(data, true);
    var acc: U32, i := 0, 0;
    hide WSum, Rep, HostSum, FoldSwap, Fold, SwapWord, Add32;
    while |data| - i > 1
      invariant 0 <= i <= |data| && i % 2 == 0
      invariant acc == WSum(data[..i], true)
    {
      WSumTwo(data, i, true);
      WSumNoWrap(data, i + 2, true);
      AddNoWrap(acc, 0x100 * (data[i] as int) + data[i + 1]);
      acc := Add32(acc, 0x100 * (data[i] as int) + data[i + 1]);
      i := i + 2;
    }
    if |data| - i > 0 {
      WSumOne(data, i, true);
      WSumNoWrap(data, i + 1, true);
      AddNoWrap(acc, 0x100 * (data[i] as int));
      acc := Add32(acc, 0x100 * (data[i] as int));
      i := i + 1;
    }
    assert data[..i] == data;
    RepBy(acc, WSum(data, true), 0);
    FoldSwapExact(acc, data, true);
    SwapOfFolds(acc);
    acc := Fold(acc);
    if acc / 0x1_0000 != 0 {
      acc := Fold(acc);
    } else {
      FoldSkipped(acc);
    }
    r := SwapWord(acc);
  }

  /** Where versions 2 and 3 stand after `i` bytes: the heavy end byte `t1`
      aside, `sum` stands for the bytes summed so far. The first byte weighs
      256 exactly when the buffer starts at an odd address. */
  ghost predicate Summed(sum: int, t1: Byte, data: seq<Byte>, i: nat, odd: bool) {
    && i <= |data| && (|data| > 0 ==> Odd(i) == odd)
    && Rep(sum, WSum(data[..i], odd) - 0x100 * (t1 as int))
  }

  lemma SummedStart(data: seq<Byte>, odd: bool)
    ensures |data| == 0 || !odd ==> Summed(0, 0, data, 0, odd)
    ensures |data| > 0 && odd ==> Summed(0, data[0], data, 1, odd) && WSum(data[..1], odd) == 0x100 * (data[0] as int)
  {
    RepBy(0, 0, 0);
    if |data| > 0 {
      WSumOne(data, 0, odd);
    }
  }

  lemma SummedPair(sum: int, t1: Byte, data: seq<Byte>, i: nat, odd: bool)
    requires Summed(sum, t1, data, i, odd) && i + 2 <= |data|
    ensures Summed(sum + Le16(data[i], data[i + 1]), t1, data, i + 2, odd)
    ensures WSum(data[..i + 2], odd) == WSum(data[..i], odd) + Le16(data[i], data[i + 1])
  {
    WSumTwo(data, i, odd);
    RepAddEqual(sum, WSum(data[..i], odd) - 0x100 * (t1 as int), Le16(data[i], data[i + 1]),
                WSum(data[..i + 2], odd) - 0x100 * (t1 as int));
  }

  lemma RepAddEqual(acc: int, x: int, w: nat, y: int)
    requires Rep(acc, x) && y == x + w
    ensures Rep(acc + w, y)
  {
    RepBy(w, w, 0);
    RepAdd(acc, x, w, w);
  }

  /** The left-over byte, if any, is a light one. */
  lemma WSumLeftOver(data: seq<Byte>, i: nat, t0: Byte, odd: bool)
    requires |data| - 1 <= i <= |data| && (|data| > 0 ==> Odd(i) == odd)
    requires t0 == if i < |data| then data[i] else 0
    ensures WSum(data, odd) == WSum(data[..i], odd) + t0
  {
    if i < |data| {
      WSumOne(data, i, odd);
      assert data[..i + 1] == data;
    } else {
      assert data[..i] == data;
    }
  }

  /** The end bytes join the sum, whether or not a byte is left over. */
  lemma SummedEnd(sum: int, t0: Byte, t1: Byte, data: seq<Byte>, i: nat, odd: bool)
    requires Summed(sum, t1, data, i, odd) && |data| - i <= 1
    requires t0 == if i < |data| then data[i] else 0
    ensures Rep(sum + Le16(t0, t1), WSum(data, odd))
  {
    WSumLeftOver(data, i, t0, odd);
    RepAddEqual(sum, WSum(data[..i], odd) - 0x100 * (t1 as int), Le16(t0, t1), WSum(data, odd));
  }

  /** A word is loaded from an even address, and the next one will be too. */
  lemma PairAligned(addr: nat, i: nat, odd: bool)
    requires odd == Odd(addr) && Odd(i) == odd
    ensures Aligned(addr, i, 2) && Odd(i + 2) == odd
  {}

  /** Version 2, the compiled one: aligned 16-bit loads, with the end bytes
      gathered in `t`. */
  method StandardChksum2(data: seq<Byte>, addr: nat) returns (r: U16)
    requires |data| <= 0x2_0000
    ensures r == HostSum(data)
  {
    var t0: Byte, t1: Byte, sum: U32, i := 0, 0, 0, 0;
    var odd := addr % 2 == 1;
    WSumNone(data, odd);
    if odd && |data| > 0 {
      WSumOne(data, 0, true);
      t1, i := data[0], 1;
    }
    hide WSum, Rep, HostSum, FoldSwap, Add32, Odd, Aligned;
    while |data| - i > 1
      invariant 0 <= i <= |data| && (|data| > 0 ==> Odd(i) == odd)
      invariant sum + 0x100 * (t1 as int) == WSum(data[..i], odd)
    {
      WSumTwo(data, i, odd);
      WSumNoWrap(data, i + 2, odd);
      PairAligned(addr, i, odd);
      AddNoWrap(sum, Load16(data, addr, i));
      sum := Add32(sum, Load16(data, addr, i));
      i := i + 2;
    }
    if |data| - i > 0 {
      t0 := data[i];
    }
    WSumLeftOver(data, i, t0, odd);
    SumFits(data, odd);
    AddNoWrap(sum, Le16(t0, t1));
    sum := Add32(sum, Le16(t0, t1));
    RepBy(sum, WSum(data, odd), 0);
    FoldSwapExact(sum, data, odd);
    r := FoldSwap(sum, odd);
  }

  /** 32-bit addition with the carry added back, as in the unrolled loop. */
  function AddBack(sum: U32, l: U32): (r: U32) {
    var tmp := Add32(sum, l);
    if tmp < sum then Add32(tmp, 1) else tmp
  }

  lemma RepAddBack(sum: U32, l: U32, x: int, y: int)
    requires Rep(sum, x) && Rep(l, y)
    ensures Rep(AddBack(sum, l), x + y)
  {
    RepAdd(sum, x, l, y);
    var s: int, t: int := sum, l;
    RepBy(AddBack(sum, l), s + t, if s + t >= 0x1_0000_0000 then -0x1_0001 else 0);
    RepTrans(AddBack(sum, l), s + t, x + y);
  }

  /** A 32-bit load stands for the four bytes it covers, in either weighting
      that makes its first byte light. */
  lemma RepLoad32(data: seq<Byte>, i: nat, hi: bool)
    requires i + 4 <= |data| && Odd(i) == hi
    ensures WSum(data[..i], hi) <= WSum(data[..i + 4], hi)
    ensures Rep(Le32(data[i], data[i + 1], data[i + 2], data[i + 3]),
                WSum(data[..i + 4], hi) - WSum(data[..i], hi))
  {
    WSumTwo(data, i, hi);
    WSumTwo(data, i + 2, hi);
    var l: int, w: int := Le16(data[i], data[i + 1]), Le16(data[i + 2], data[i + 3]);
    RepBy(Le32(data[i], data[i + 1], data[i + 2], data[i + 3]), l + w, w);
  }

  lemma SummedWord(sum: U32, t1: Byte, data: seq<Byte>, addr: nat, i: nat, odd: bool)
    requires Summed(sum, t1, data, i, odd) && i + 4 <= |data| && Aligned(addr, i, 4)
    ensures Summed(AddBack(sum, Load32(data, addr, i)), t1, data, i + 4, odd)
  {
    RepLoad32(data, i, odd);
    RepAddBack(sum, Load32(data, addr, i), WSum(data[..i], odd) - 0x100 * (t1 as int),
               WSum(data[..i + 4], odd) - WSum(data[..i], odd));
  }

  lemma WordsAligned(addr: nat, i: nat)
    requires Aligned(addr, i, 4)
    ensures Aligned(addr, i + 4, 4) && Aligned(addr, i + 8, 4)
  {}

  /** After the head bytes, every remaining word is a multiple of 4 away. */
  lemma HeadAligned(addr: nat, i: nat)
    requires Aligned(addr, i, 2) && !Aligned(addr, i, 4)
    ensures Aligned(addr, i + 2, 4)
  {}

  /** The unrolled loop of version 3: two 32-bit loads a turn. */
  method SumWords(data: seq<Byte>, addr: nat, sum0: U32, t1: Byte, i0: nat, odd: bool)
    returns (sum: U32, i: nat)
    requires Summed(sum0, t1, data, i0, odd)
    requires |data| - i0 > 1 ==> Aligned(addr, i0, 4)
    ensures Summed(sum, t1, data, i, odd) && |data| - i <= 7
  {
    hide WSum, Rep, AddBack, Load32, Aligned, Odd;
    sum, i := sum0, i0;
    while |data| - i > 7
      invariant Summed(sum, t1, data, i, odd)
      invariant |data| - i > 1 ==> Aligned(addr, i, 4)
    {
      WordsAligned(addr, i);
      SummedWord(sum, t1, data, addr, i, odd);
      var tmp := AddBack(sum, Load32(data, addr, i));
      SummedWord(tmp, t1, data, addr, i + 4, odd);
      sum := AddBack(tmp, Load32(data, addr, i + 4));
      i := i + 8;
    }
  }

  /** The loop over the remaining aligned 16-bit words; `sum` has just been
      folded, so there is room for them. */
  method SumPairs(data: seq<Byte>, addr: nat, sum0: U32, t1: Byte, i0: nat, odd: bool)
    returns (sum: U32, i: nat)
    requires Summed(sum0, t1, data, i0, odd)
    requires odd == Odd(addr)
    requires |data| - i0 <= 7 && sum0 <= 0x1_FFFE
    ensures Summed(sum, t1, data, i, odd) && |data| - i <= 1 && sum <= 0x8_FFFF
  {
    hide WSum, Rep, Add32, Aligned, Odd;
    sum, i := sum0, i0;
    while |data| - i > 1
      invariant Summed(sum, t1, data, i, odd)
      invariant i0 <= i && sum <= 0x1_FFFE + (i - i0) * 0xFFFF
    {
      SummedPair(sum, t1, data, i, odd);
      PairAligned(addr, i, odd);
      AddNoWrap(sum, Load16(data, addr, i));
      sum := Add32(sum, Load16(data, addr, i));
      i := i + 2;
    }
  }

  /** Version 3: 32-bit loads with end-around carry. It has no length limit. */
  method StandardChksum3(data: seq<Byte>, addr: nat) returns (r: U16)
    ensures r == HostSum(data)
  {
    hide WSum, Rep, HostSum, FoldSwap, Fold, Add32, Aligned;
    var t0: Byte, t1: Byte, sum: U32, i := 0, 0, 0, 0;
    var odd := addr % 2 == 1;
    SummedStart(data, odd);
    if odd && |data| > 0 {
      t1, i := data[0], 1;
    }
    if !Aligned(addr, i, 4) && |data| - i > 1 {
      SummedPair(sum, t1, data, i, odd);
      PairAligned(addr, i, odd);
      HeadAligned(addr, i);
      AddNoWrap(sum, Load16(data, addr, i));
      sum := Add32(sum, Load16(data, addr, i));
      i := i + 2;
    }
    sum, i := SumWords(data, addr, sum, t1, i, odd);
    RepFold(sum, WSum(data[..i], odd) - 0x100 * (t1 as int));
    sum := Fold(sum);
    sum, i := SumPairs(data, addr, sum, t1, i, odd);
    if |data| - i > 0 {
      t0 := data[i];
    }
    SummedEnd(sum, t0, t1, data, i, odd);
    AddNoWrap(sum, Le16(t0, t1));
    sum := Add32(sum, Le16(t0, t1));
    FoldSwapExact(sum, data, odd);
    r := FoldSwap(sum, odd);
  }

  /** inet_chksum over one buffer. */
  method Chksum(data: seq<Byte>, addr: nat) returns (r: U16)
    requires |data| <= 0xFFFF
    ensures r == ChecksumField(data)
  {
    var sum := StandardChksum2(data, addr);
    r := Complement16(sum);
  }
}
