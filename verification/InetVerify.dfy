/** What a checksum field is for: a message that carries its own checksum sums
    to zero on arrival, and a damaged word does not. */
module InetVerify {
  import opened Words
  import opened InetSum

  /** The message with the 16-bit field at offset `k` set to `w`. */
  function Patch(m: seq<Byte>, k: nat, w: U16): (r: seq<Byte>)
    requires k + 2 <= |m|
    ensures |r| == |m|
  {
    m[..k] + PutLe16(w) + m[k + 2..]
  }

  /** The sum of everything but the field. */
  function Rest(m: seq<Byte>, k: nat): (r: nat)
    requires k + 2 <= |m|
  {
    WSum(m[..k], false) + WSum(m[k + 2..], false)
  }

  lemma WSumField(w: U16)
    ensures WSum(PutLe16(w), false) == w
  {
    var s := PutLe16(w);
    assert s[1..][1..] == [];
    assert WSum(s[1..], true) == 0x100 * (s[1] as int);
  }

  lemma PatchSum(m: seq<Byte>, k: nat, w: U16)
    requires k % 2 == 0 && k + 2 <= |m|
    ensures WSum(Patch(m, k, w), false) == Rest(m, k) + w
  {
    hide WSum, PutLe16;
    WSumConcat(m[..k] + PutLe16(w), m[k + 2..], false);
    WSumConcat(m[..k], PutLe16(w), false);
    WSumField(w);
  }

  /** The words whose one's complement values agree. */
  predicate SameOnes(w: U16, v: U16) {
    w == v || (w == 0 && v == 0xFFFF) || (w == 0xFFFF && v == 0)
  }

  lemma HostSumEqual(s: seq<Byte>, t: seq<Byte>)
    ensures HostSum(s) == HostSum(t) <==> Rep(WSum(s, false), WSum(t, false))
  {
    HostSumRep(s);
    HostSumRep(t);
    hide WSum, HostSum;
    if HostSum(s) == HostSum(t) {
      RepSym(HostSum(s), WSum(s, false));
      RepTrans(WSum(s, false), HostSum(s), WSum(t, false));
    }
    if Rep(WSum(s, false), WSum(t, false)) {
      RepTrans(HostSum(s), WSum(s, false), WSum(t, false));
      RepUnique(HostSum(s), HostSum(t), WSum(t, false));
    }
  }

  lemma RepSameOnes(r: nat, w: U16, v: U16)
    ensures Rep(r + w, r + v) <==> w == v || (SameOnes(w, v) && r > 0)
  {
    var x: int, y: int := w, v;
    if Rep(r + x, r + y) {
      var k :| r + x == r + y + Turns(k);
      assert x - y == 0xFFFF * k;
    }
    if SameOnes(w, v) && (w == v || r > 0) {
      RepBy(r + x, r + y, if x == y then 0 else if x > y then 1 else -1);
    }
  }

  /** Changing one aligned word changes the checksum, except that 0 and 0xFFFF
      are the same word as long as something else in the message is not zero. */
  lemma WordChangeDetected(m: seq<Byte>, k: nat, w: U16, v: U16)
    requires k % 2 == 0 && k + 2 <= |m|
    ensures ChecksumField(Patch(m, k, w)) == ChecksumField(Patch(m, k, v)) <==>
            w == v || (SameOnes(w, v) && Rest(m, k) > 0)
  {
    hide HostSum, WSum, Rest, Patch, Rep;
    PatchSum(m, k, w);
    PatchSum(m, k, v);
    HostSumEqual(Patch(m, k, w), Patch(m, k, v));
    RepSameOnes(Rest(m, k), w, v);
  }

  /** A sum of 0xFFFF is what a receiver looks for. */
  lemma VerifiesWhen(m: seq<Byte>)
    ensures ChecksumField(m) == 0 <==> Rep(0xFFFF, WSum(m, false))
  {
    hide HostSum, WSum;
    HostSumRep(m);
    if Rep(0xFFFF, WSum(m, false)) {
      HostSumExact(0xFFFF, m);
    }
  }

  /** Self-verification: with the field at `k` zero while the checksum is
      computed, the values that make the message verify are exactly the
      computed one and, where that is 0, its other form 0xFFFF. */
  lemma StoredChecksumVerifies(m: seq<Byte>, k: nat, w: U16)
    requires k % 2 == 0 && k + 2 <= |m|
    ensures var v := ChecksumField(Patch(m, k, 0));
            ChecksumField(Patch(m, k, w)) == 0 <==> w == v || (v == 0 && w == 0xFFFF)
  {
    hide HostSum, WSum, Rest, Patch;
    var r: int, x: int, h: int := Rest(m, k), w, HostSum(Patch(m, k, 0));
    PatchSum(m, k, 0);
    PatchSum(m, k, w);
    HostSumRep(Patch(m, k, 0));
    VerifiesWhen(Patch(m, k, w));
    var j :| h == r + Turns(j);
    if Rep(0xFFFF, r + x) {
      var i :| 0xFFFF == r + x + Turns(i);
      assert x + h - 0xFFFF == 0xFFFF * (j - i);
    }
    if x == 0xFFFF - h {
      RepBy(0xFFFF, r + x, j);
    }
    if h == 0xFFFF && x == 0xFFFF {
      RepBy(0xFFFF, r + x, j - 1);
    }
  }
}
