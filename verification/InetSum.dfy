/** The arithmetic behind the Internet checksum: the reference sum of section 2
    of RFC 1071, byte sums weighted by position, and the congruence modulo 65535
    that relates every accumulator in arm_host/source/lwip/inet_chksum.c to it. */
module InetSum {
  import opened Words

  /** One's complement addition of 16-bit words: the carry goes back in. */
  function OnesAdd(x: U16, y: U16): (r: U16) {
    var sum: int := x + y;
    if sum > 0xFFFF then sum - 0xFFFF else sum
  }

  /** The one's complement sum of the big-endian 16-bit words of a message,
      a last odd byte being padded with zero. */
  function RefSum(s: seq<Byte>): (r: U16) {
    if |s| == 0 then 0
    else if |s| == 1 then 0x100 * (s[0] as int)
    else OnesAdd(0x100 * (s[0] as int) + s[1], RefSum(s[2..]))
  }

  /** What a little-endian machine holds after summing `s`: the reference sum
      with its two bytes exchanged. */
  function HostSum(s: seq<Byte>): (r: U16) {
    SwapWord(RefSum(s))
  }

  /** The checksum field for `s`, as the machine stores it directly in a header. */
  function ChecksumField(s: seq<Byte>): (r: U16) {
    Complement16(HostSum(s))
  }

  /** Plain sum of the bytes, weighted 256 and 1 alternately; `hi` says whether
      the first byte is the heavy one. */
  function WSum(s: seq<Byte>, hi: bool): (r: nat) {
    if |s| == 0 then 0 else (if hi then 0x100 * (s[0] as int) else s[0]) + WSum(s[1..], !hi)
  }

  predicate Odd(n: nat) { n % 2 == 1 }

  /** Multiples of 65535. */
  function Turns(k: int): (r: int) { 0xFFFF * k }

  /** `acc` stands for the sum `x`: congruent modulo 65535, and zero together. */
  ghost predicate Rep(acc: int, x: int) {
    0 <= acc && 0 <= x && (acc == 0 <==> x == 0) && exists k :: acc == x + Turns(k)
  }

  lemma RepBy(acc: int, x: int, k: int)
    requires 0 <= acc && 0 <= x && (acc == 0 <==> x == 0) && acc == x + 0xFFFF * k
    ensures Rep(acc, x)
  {
    assert acc == x + Turns(k);
  }

  lemma RepUnique(r: int, q: int, x: int)
    requires Rep(r, x) && Rep(q, x) && r <= 0xFFFF && q <= 0xFFFF
    ensures r == q
  {
    var j :| r == x + Turns(j);
    var k :| q == x + Turns(k);
    assert r - q == 0xFFFF * (j - k);
  }

  lemma RepAdd(a: int, x: int, b: int, y: int)
    requires Rep(a, x) && Rep(b, y)
    ensures Rep(a + b, x + y)
  {
    var j :| a == x + Turns(j);
    var k :| b == y + Turns(k);
    RepBy(a + b, x + y, j + k);
  }

  lemma RepTrans(a: int, b: int, x: int)
    requires Rep(a, b) && Rep(b, x)
    ensures Rep(a, x)
  {
    var j :| a == b + Turns(j);
    var k :| b == x + Turns(k);
    RepBy(a, x, j + k);
  }

  lemma RepSym(a: int, x: int)
    requires Rep(a, x)
    ensures Rep(x, a)
  {
    var k :| a == x + Turns(k);
    RepBy(x, a, -k);
  }

  lemma RepFold(u: U32, x: int)
    requires Rep(u, x)
    ensures Rep(Fold(u), x)
    ensures u <= 0x1_FFFE ==> Fold(u) <= 0xFFFF
    ensures Fold(u) <= 0x1_FFFE
  {
    RepBy(Fold(u), u, -(u / 0x1_0000));
    RepTrans(Fold(u), u, x);
  }

  /** Folding a 32-bit word twice always reaches 16 bits. */
  lemma RepFoldTwice(u: U32, x: int)
    requires Rep(u, x)
    ensures Fold(Fold(u)) <= 0xFFFF && Rep(Fold(Fold(u)), x)
  {
    RepFold(u, x);
    RepFold(Fold(u), x);
  }

  lemma Rep256(a: int, x: int)
    requires Rep(a, x)
    ensures Rep(0x100 * a, 0x100 * x)
  {
    var k :| a == x + Turns(k);
    RepBy(0x100 * a, 0x100 * x, 0x100 * k);
  }

  /** Exchanging the bytes of a 16-bit accumulator multiplies by 256. */
  lemma RepSwap(w: U16, x: int)
    requires Rep(w, x)
    ensures Rep(SwapWord(w), 0x100 * x)
  {
    RepBy(SwapWord(w), 0x100 * (w as int), -(w / 0x100));
    Rep256(w, x);
    RepTrans(SwapWord(w), 0x100 * (w as int), 0x100 * x);
  }

  /** Multiplying twice by 256 changes nothing. */
  lemma RepTwice256(acc: int, x: int)
    ensures Rep(acc, 0x100 * (0x100 * x)) <==> Rep(acc, x)
  {
    if 0 <= x {
      RepBy(0x100 * (0x100 * x), x, x);
      if Rep(acc, x) {
        RepSym(0x100 * (0x100 * x), x);
        RepTrans(acc, x, 0x100 * (0x100 * x));
      }
      if Rep(acc, 0x100 * (0x100 * x)) {
        RepTrans(acc, 0x100 * (0x100 * x), x);
      }
    }
  }

  lemma {:induction false} WSumConcat(a: seq<Byte>, b: seq<Byte>, hi: bool)
    ensures WSum(a + b, hi) == WSum(a, hi) + WSum(b, if Odd(|a|) then !hi else hi)
  {
    if |a| == 0 {
      assert a + b == b;
    } else {
      assert (a + b)[1..] == a[1..] + b;
      WSumConcat(a[1..], b, !hi);
    }
  }

  /** The two weightings differ by the factor 256, and vanish together. */
  lemma {:induction false} WSumShift(s: seq<Byte>, hi: bool)
    ensures Rep(WSum(s, !hi), 0x100 * WSum(s, hi))
  {
    if |s| == 0 {
      RepBy(0, 0, 0);
    } else {
      WSumShift(s[1..], !hi);
      var b: int := s[0];
      if hi {
        RepBy(b, 0x100 * (0x100 * b), -b);
        RepAdd(b, 0x100 * (0x100 * b), WSum(s[1..], hi), 0x100 * WSum(s[1..], !hi));
      } else {
        RepBy(0x100 * b, 0x100 * b, 0);
        RepAdd(0x100 * b, 0x100 * b, WSum(s[1..], hi), 0x100 * WSum(s[1..], !hi));
      }
    }
  }

  lemma {:induction false} WSumBound(s: seq<Byte>, hi: bool)
    ensures WSum(s, hi) <= 0xFFFF * ((|s| + 1) / 2)
    ensures !hi && Odd(|s|) ==> WSum(s, hi) <= 0xFFFF * (|s| / 2) + 0xFF
  {
    if |s| >= 2 {
      WSumBound(s[2..], hi);
      assert s[1..][1..] == s[2..];
    }
  }

  lemma RepOnesAdd(w: U16, r: U16, x: int)
    requires Rep(r, x)
    ensures Rep(OnesAdd(w, r), (w as int) + x)
  {
    var k :| r == x + Turns(k);
    RepBy(OnesAdd(w, r), (w as int) + x, if (w as int) + r > 0xFFFF then k - 1 else k);
  }

  /** The reference sum stands for the big-endian byte sum. */
  lemma {:induction false} RefSumRep(s: seq<Byte>)
    ensures Rep(RefSum(s), WSum(s, true))
  {
    if |s| >= 2 {
      RefSumRep(s[2..]);
      assert s[1..][1..] == s[2..];
      RepOnesAdd(0x100 * (s[0] as int) + s[1], RefSum(s[2..]), WSum(s[2..], true));
    } else {
      assert |s| == 1 ==> WSum(s[1..], false) == 0;
      RepBy(RefSum(s), WSum(s, true), 0);
    }
  }

  lemma HostSumRep(s: seq<Byte>)
    ensures Rep(HostSum(s), WSum(s, false))
  {
    RefSumRep(s);
    RepSwap(RefSum(s), WSum(s, true));
    WSumShift(s, true);
    RepSym(WSum(s, false), 0x100 * WSum(s, true));
    RepTrans(HostSum(s), 0x100 * WSum(s, true), WSum(s, false));
  }

  /** A 16-bit accumulator that stands for the little-endian byte sum is the
      host-order reference sum exactly, 0 and 0xFFFF kept apart. */
  lemma HostSumExact(acc: int, s: seq<Byte>)
    requires acc <= 0xFFFF && Rep(acc, WSum(s, false))
    ensures acc == HostSum(s)
  {
    HostSumRep(s);
    RepUnique(HostSum(s), acc, WSum(s, false));
  }
}
