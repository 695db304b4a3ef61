/** arm_host/source/lwip/inet_chksum.c: checksums over pbuf chains, with and
    without the IPv4 pseudo-header, whole or partial. */
module InetChain {
  import opened Words
  import opened InetSum
  import InetChksum

  /** One buffer of a chain (include/lwip/pbuf.h): where its payload starts and
      what it holds. `len` is a 16-bit field. */
  datatype Pbuf = Pbuf(addr: nat, payload: seq<Byte>)

  predicate ValidChain(chain: seq<Pbuf>) {
    forall i :: 0 <= i < |chain| ==> |chain[i].payload| <= 0xFFFF
  }

  /** The message a chain holds. */
  function Bytes(chain: seq<Pbuf>): (s: seq<Byte>) {
    if |chain| == 0 then [] else chain[0].payload + Bytes(chain[1..])
  }

  lemma {:induction false} BytesSnoc(chain: seq<Pbuf>, k: nat)
    requires k < |chain|
    ensures Bytes(chain[..k + 1]) == Bytes(chain[..k]) + chain[k].payload
  {
    assert chain[..k + 1][0] == chain[0];
    assert chain[..k + 1][1..] == chain[1..][..k];
    if k > 0 {
      assert chain[..k][0] == chain[0];
      assert chain[..k][1..] == chain[1..][..k - 1];
      BytesSnoc(chain[1..], k - 1);
      var h, m, t := chain[0].payload, Bytes(chain[1..][..k - 1]), chain[k].payload;
      assert h + (m + t) == (h + m) + t;
    } else {
      assert chain[..1][1..] == [];
      assert chain[0].payload + [] == [] + chain[0].payload;
    }
  }

  /** The accumulator between two pbufs: 16 bits wide, so that the byte swap
      loses nothing, and carrying the factor 256 while `swapped`. */
  ghost predicate Carried(acc: int, swapped: bool, x: int) {
    acc <= 0xFFFF && Rep(acc, if swapped then 0x100 * x else x)
  }

  lemma CarriedSwap(acc: U16, swapped: bool, x: int)
    requires Carried(acc, swapped, x)
    ensures Carried(SwapWord(acc), !swapped, x)
  {
    hide SwapWord;
    if swapped {
      RepSwap(acc, 0x100 * x);
      RepTwice256(SwapWord(acc), x);
    } else {
      RepSwap(acc, x);
    }
  }

  /** Adding one buffer's sum: after an odd number of bytes the buffer's own
      little-endian sum stands for 256 times its share. */
  lemma CarriedAdd(acc: U16, swapped: bool, a: nat, s: seq<Byte>, p: seq<Byte>)
    requires Carried(acc, swapped, a + WSum(s, false)) && swapped == Odd(|s|)
    ensures Carried(Fold(acc + HostSum(p)), swapped, a + WSum(s + p, false))
  {
    hide HostSum, Fold, WSum, Rep;
    WSumConcat(s, p, false);
    HostSumRep(p);
    var u: int := (acc as int) + HostSum(p);
    if swapped {
      WSumShift(p, true);
      var x, y := a + WSum(s, false), WSum(p, true);
      RepTrans(HostSum(p), WSum(p, false), 0x100 * y);
      RepAdd(acc, 0x100 * x, HostSum(p), 0x100 * y);
      RepFold(u, 0x100 * (x + y));
    } else {
      RepAdd(acc, a + WSum(s, false), HostSum(p), WSum(p, false));
      RepFold(u, a + WSum(s + p, false));
    }
  }

  /** The loop shared by inet_chksum_pbuf and inet_cksum_pseudo_base, with the
      swap that follows it: `acc0` stands for the sum `a` of what precedes. */
  method SumChain(chain: seq<Pbuf>, acc0: U16, ghost a: nat) returns (acc: U16)
    requires ValidChain(chain) && Rep(acc0, a)
    ensures Rep(acc, a + WSum(Bytes(chain), false))
  {
    hide HostSum, Fold, WSum, Rep, SwapWord;
    acc := acc0;
    var swapped, k := false, 0;
    SumStart(acc0, a);
    while k < |chain|
      invariant 0 <= k <= |chain| && swapped == Odd(|Bytes(chain[..k])|)
      invariant Carried(acc, swapped, a + WSum(Bytes(chain[..k]), false))
    {
      var q := chain[k];
      BytesSnoc(chain, k);
      var sum := InetChksum.StandardChksum2(q.payload, q.addr);
      CarriedAdd(acc, swapped, a, Bytes(chain[..k]), q.payload);
      acc := Fold(acc + sum);
      if |q.payload| % 2 != 0 {
        CarriedSwap(acc, swapped, a + WSum(Bytes(chain[..k + 1]), false));
        swapped, acc := !swapped, SwapWord(acc);
      }
      k := k + 1;
    }
    assert chain[..k] == chain;
    if swapped {
      CarriedSwap(acc, swapped, a + WSum(Bytes(chain), false));
      acc := SwapWord(acc);
    }
  }

  lemma SumStart(acc: U16, a: nat)
    requires Rep(acc, a)
    ensures Carried(acc, false, a + WSum([], false))
  {}

  /** inet_chksum_pbuf. */
  method ChksumPbuf(chain: seq<Pbuf>) returns (r: U16)
    requires ValidChain(chain)
    ensures r == ChecksumField(Bytes(chain))
  {
    RepBy(0, 0, 0);
    var acc := SumChain(chain, 0, 0);
    HostSumExact(acc, Bytes(chain));
    r := Complement16(acc);
  }

  /** The 12 bytes that precede the segment in the sum (section 3.1 of RFC 9293
      and RFC 768): addresses, a zero byte, protocol and length, all in network
      order. Addresses are kept in network order in memory. */
  function PseudoHeader(src: U32, dest: U32, proto: Byte, protoLen: U16): (s: seq<Byte>)
    ensures |s| == 12
  {
    PutLe32(src) + PutLe32(dest) + [0, proto, protoLen / 0x100, protoLen % 0x100]
  }

  lemma WSumWord(u: U32)
    ensures WSum(PutLe32(u), false) == u % 0x1_0000 + u / 0x1_0000
  {
    hide WSum;
    var s := PutLe32(u);
    InetChksum.WSumNone(s, false);
    InetChksum.WSumTwo(s, 0, false);
    InetChksum.WSumTwo(s, 2, false);
    assert s[..0] == [] && s[..4] == s;
    assert s[..2] == PutLe16(u % 0x1_0000) && s[2..] == PutLe16(u / 0x1_0000);
    assert s[2] == PutLe16(u / 0x1_0000)[0] && s[3] == PutLe16(u / 0x1_0000)[1];
  }

  lemma SwapIsBigEndian(w: U16)
    ensures SwapWord(w) == Le16(w / 0x100, w % 0x100)
  {}

  lemma WSumProto(proto: Byte, protoLen: U16)
    ensures WSum([0, proto, protoLen / 0x100, protoLen % 0x100], false) ==
            (SwapWord(proto) as int) + SwapWord(protoLen)
  {
    SwapIsBigEndian(proto);
    SwapIsBigEndian(protoLen);
    hide WSum, SwapWord, Le16;
    var s: seq<Byte> := [0, proto, protoLen / 0x100, protoLen % 0x100];
    InetChksum.WSumNone(s, false);
    InetChksum.WSumTwo(s, 0, false);
    InetChksum.WSumTwo(s, 2, false);
    assert s[..4] == s;
  }

  /** The sum of header and segment splits into the pieces the code adds. */
  lemma PseudoSum(src: U32, dest: U32, proto: Byte, protoLen: U16, s: seq<Byte>)
    ensures WSum(PseudoHeader(src, dest, proto, protoLen) + s, false) ==
            AddrSum(src, dest) + (SwapWord(proto) as int) + SwapWord(protoLen) + WSum(s, false)
  {
    hide WSum, SwapWord, PutLe32;
    var tail := [0, proto, protoLen / 0x100, protoLen % 0x100];
    WSumConcat(PseudoHeader(src, dest, proto, protoLen), s, false);
    WSumConcat(PutLe32(src) + PutLe32(dest), tail, false);
    WSumConcat(PutLe32(src), PutLe32(dest), false);
    WSumWord(src);
    WSumWord(dest);
    WSumProto(proto, protoLen);
  }

  /** The four address halves, added up. */
  function AddrSum(src: U32, dest: U32): (r: U32) {
    src % 0x1_0000 + src / 0x1_0000 + (dest % 0x1_0000 + dest / 0x1_0000)
  }

  /** How both pseudo drivers end: protocol and length join the sum, which is
      folded and complemented. */
  function AddProto(acc: U16, proto: Byte, protoLen: U16): (r: U16) {
    var sum: int := acc + SwapWord(proto) + SwapWord(protoLen);
    Complement16(Fold(Fold(sum)) % 0x1_0000)
  }

  lemma AddProtoExact(acc: U16, src: U32, dest: U32, proto: Byte, protoLen: U16, s: seq<Byte>)
    requires Rep(acc, AddrSum(src, dest) + WSum(s, false))
    ensures AddProto(acc, proto, protoLen) == ChecksumField(PseudoHeader(src, dest, proto, protoLen) + s)
  {
    hide WSum, SwapWord, PutLe32, Fold, HostSum, Rep, PseudoHeader, AddrSum;
    var m := PseudoHeader(src, dest, proto, protoLen) + s;
    PseudoSum(src, dest, proto, protoLen, s);
    var p: int := (SwapWord(proto) as int) + SwapWord(protoLen);
    var sum: int := (acc as int) + p;
    assert acc + SwapWord(proto) + SwapWord(protoLen) == sum;
    RepRefl(p);
    RepAdd(acc, AddrSum(src, dest) + WSum(s, false), p, p);
    RepFoldTwice(sum, WSum(m, false));
    HostSumExact(Fold(Fold(sum)), m);
  }

  lemma RepRefl(p: nat)
    ensures Rep(p, p)
  {
    RepBy(p, p, 0);
  }

  lemma AddrRep(src: U32, dest: U32)
    ensures Fold(Fold(AddrSum(src, dest))) <= 0xFFFF
    ensures Rep(Fold(Fold(AddrSum(src, dest))), AddrSum(src, dest))
  {
    RepRefl(AddrSum(src, dest));
    RepFoldTwice(AddrSum(src, dest), AddrSum(src, dest));
  }

  /** inet_chksum_pseudo. */
  method ChksumPseudo(chain: seq<Pbuf>, proto: Byte, protoLen: U16, src: U32, dest: U32) returns (r: U16)
    requires ValidChain(chain)
    ensures r == ChecksumField(PseudoHeader(src, dest, proto, protoLen) + Bytes(chain))
  {
    hide *;
    AddrRep(src, dest);
    var acc := SumChain(chain, Fold(Fold(AddrSum(src, dest))), AddrSum(src, dest));
    AddProtoExact(acc, src, dest, proto, protoLen, Bytes(chain));
    r := AddProto(acc, proto, protoLen);
  }

  lemma {:induction false} BytesSplit(chain: seq<Pbuf>, k: nat)
    requires k <= |chain|
    ensures Bytes(chain) == Bytes(chain[..k]) + Bytes(chain[k..])
  {
    if k == 0 {
      assert chain[..0] == [] && chain[0..] == chain;
    } else {
      BytesSplit(chain[1..], k - 1);
      assert chain[1..][..k - 1] == chain[..k][1..] && chain[1..][k - 1..] == chain[k..];
      var h, m, t := chain[0].payload, Bytes(chain[..k][1..]), Bytes(chain[k..]);
      assert h + (m + t) == (h + m) + t;
    }
  }

  /** The part of the message the partial driver covers. */
  function Covered(chain: seq<Pbuf>, chksumLen: U16): (s: seq<Byte>) {
    Bytes(chain)[..Min(chksumLen, |Bytes(chain)|)]
  }

  /** Taking `n` bytes of pbuf `k` after covering all of the earlier ones
      covers a prefix of the message. */
  lemma CoverStep(chain: seq<Pbuf>, k: nat, n: nat)
    requires k < |chain| && n <= |chain[k].payload|
    ensures |Bytes(chain[..k])| + n <= |Bytes(chain)|
    ensures Bytes(chain[..k]) + chain[k].payload[..n] == Bytes(chain)[..|Bytes(chain[..k])| + n]
  {
    BytesSplit(chain, k);
    assert chain[k..][0] == chain[k];
  }

  /** What holds between two turns of the partial loop, `left` bytes before the
      end of the covered part. */
  ghost predicate PartialAt(chain: seq<Pbuf>, chksumLen: U16, k: nat, left: nat, swapped: bool, cov: seq<Byte>) {
    && k <= |chain| && |cov| + left == chksumLen
    && (left > 0 ==> cov == Bytes(chain[..k]) && swapped == Odd(|cov|))
    && (left == 0 ==> |cov| <= |Bytes(chain)| && cov == Bytes(chain)[..|cov|])
  }

  lemma PartialNext(chain: seq<Pbuf>, chksumLen: U16, k: nat, left: nat, swapped: bool, cov: seq<Byte>, n: nat)
    requires PartialAt(chain, chksumLen, k, left, swapped, cov) && left > 0 && k < |chain|
    requires n == Min(|chain[k].payload|, left)
    ensures PartialAt(chain, chksumLen, k + 1, left - n, swapped != Odd(|chain[k].payload|),
                      cov + chain[k].payload[..n])
  {
    CoverStep(chain, k, n);
    if left > n {
      BytesSnoc(chain, k);
      assert chain[k].payload[..n] == chain[k].payload;
    }
  }

  lemma PartialDone(chain: seq<Pbuf>, chksumLen: U16, k: nat, left: nat, swapped: bool, cov: seq<Byte>)
    requires PartialAt(chain, chksumLen, k, left, swapped, cov) && (left == 0 || k == |chain|)
    ensures cov == Covered(chain, chksumLen)
  {
    assert chain[..|chain|] == chain;
  }

  /** The loop of inet_cksum_pseudo_partial_base. It swaps on the parity of the
      whole pbuf even where only a part is summed; the last swap undoes that.
      `warned` is the LWIP_ASSERT inside, which only prints. */
  method SumPartial(chain: seq<Pbuf>, chksumLen: U16, acc0: U16, ghost a: nat) returns (acc: U16, warned: bool)
    requires ValidChain(chain) && Rep(acc0, a)
    ensures Rep(acc, a + WSum(Covered(chain, chksumLen), false))
    ensures warned <==> |chain| > 0 && chksumLen - |chain[0].payload| >= 0x7FFF
  {
    hide HostSum, Fold, WSum, Rep, SwapWord, Bytes, Covered;
    acc, warned := acc0, false;
    var swapped, k, left: nat := false, 0, chksumLen;
    ghost var cov: seq<Byte> := [];
    SumStart(acc0, a);
    PartialStart(chain, chksumLen);
    while k < |chain| && left > 0
      invariant PartialAt(chain, chksumLen, k, left, swapped, cov)
      invariant Carried(acc, swapped, a + WSum(cov, false))
      invariant k == 0 ==> left == chksumLen && !warned
      invariant k > 0 ==> left <= Max0(chksumLen - |chain[0].payload|)
      invariant k > 0 ==> (warned <==> chksumLen - |chain[0].payload| >= 0x7FFF)
    {
      var q := chain[k];
      var chklen := if |q.payload| > left then left else |q.payload|;
      var sum := InetChksum.StandardChksum2(q.payload[..chklen], q.addr);
      CarriedAdd(acc, swapped, a, cov, q.payload[..chklen]);
      PartialNext(chain, chksumLen, k, left, swapped, cov, chklen);
      cov := cov + q.payload[..chklen];
      acc := Fold(acc + sum);
      left := left - chklen;
      if left >= 0x7FFF {
        warned := true;
      }
      if |q.payload| % 2 != 0 {
        CarriedSwap(acc, swapped, a + WSum(cov, false));
        swapped, acc := !swapped, SwapWord(acc);
      }
      k := k + 1;
    }
    PartialDone(chain, chksumLen, k, left, swapped, cov);
    if swapped {
      CarriedSwap(acc, swapped, a + WSum(cov, false));
      acc := SwapWord(acc);
    }
  }

  lemma PartialStart(chain: seq<Pbuf>, chksumLen: U16)
    ensures PartialAt(chain, chksumLen, 0, chksumLen, false, [])
  {}

  function Max0(x: int): (r: nat) { if x < 0 then 0 else x }

  /** inet_chksum_pseudo_partial. */
  method ChksumPseudoPartial(chain: seq<Pbuf>, proto: Byte, protoLen: U16, chksumLen: U16, src: U32, dest: U32)
    returns (r: U16, warned: bool)
    requires ValidChain(chain)
    ensures r == ChecksumField(PseudoHeader(src, dest, proto, protoLen) + Covered(chain, chksumLen))
    ensures |Bytes(chain)| <= chksumLen ==>
              r == ChecksumField(PseudoHeader(src, dest, proto, protoLen) + Bytes(chain))
    ensures warned <==> |chain| > 0 && chksumLen - |chain[0].payload| >= 0x7FFF
  {
    hide *;
    AddrRep(src, dest);
    var acc: U16;
    acc, warned := SumPartial(chain, chksumLen, Fold(Fold(AddrSum(src, dest))), AddrSum(src, dest));
    AddProtoExact(acc, src, dest, proto, protoLen, Covered(chain, chksumLen));
    r := AddProto(acc, proto, protoLen);
    if |Bytes(chain)| <= chksumLen {
      CoveredAll(chain, chksumLen);
    }
  }

  /** A partial checksum that covers everything is the whole one. */
  lemma CoveredAll(chain: seq<Pbuf>, chksumLen: U16)
    requires |Bytes(chain)| <= chksumLen
    ensures Covered(chain, chksumLen) == Bytes(chain)
  {}
}
