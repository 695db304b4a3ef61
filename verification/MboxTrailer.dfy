/** The "ack" trailer of a received frame: type-length-value records, one of
    which may announce the header of the next frame
    (arm_iop/source/wifi_card.twl.c, the loop that ends wifi_card_mbox0_readpkt). */
module MboxTrailer {
  import opened Words

  /** Is there a framed lookahead item at `i`? */
  predicate ItemAt(t: seq<Byte>, i: nat)
    requires i + 8 <= |t|
  {
    t[i] == 2 && t[i + 1] == 6 && t[i + 2] == 0xAA && t[i + 7] == 0x55
  }

  /** What the trailer bytes say, read front to back from `i`; `n` is the
      trailer's length. The loop may look up to 7 bytes past a malformed one. */
  function Scan(t: seq<Byte>, i: nat, n: nat): (r: Option<U32>)
    requires n + 7 <= |t|
    decreases n - i
  {
    if i >= n then None
    else if ItemAt(t, i) then Some(Le32(t[i + 3], t[i + 4], t[i + 5], t[i + 6]))
    else Scan(t, i + 2 + t[i + 1], n)
  }

  /** From `i` on, the trailer consists of whole records. */
  predicate Tiled(t: seq<Byte>, i: nat, n: nat)
    requires n <= |t|
    decreases n - i
  {
    i == n || (i + 2 <= n && i + 2 + t[i + 1] <= n && Tiled(t, i + 2 + t[i + 1], n))
  }

  /** A scan of whole records does not depend on what lies behind them. */
  lemma {:induction false} ScanLocal(t: seq<Byte>, u: seq<Byte>, i: nat, n: nat)
    requires n + 7 <= |t| && n + 7 <= |u| && t[..n] == u[..n] && Tiled(t, i, n)
    ensures Scan(t, i, n) == Scan(u, i, n)
    decreases n - i
  {
    if i < n {
      assert forall k :: 0 <= k < n ==> t[k] == t[..n][k] == u[k];
      ScanLocal(t, u, i + 2 + t[i + 1], n);
    }
  }

  /** The loop itself, with its 16-bit index. The flag keeps later items from
      replacing the first. */
  method ScanTrailer(t: seq<Byte>, n: Byte) returns (has: bool, word: U32)
    requires n + 7 <= |t|
    ensures Scan(t, 0, n) == if has then Some(word) else None
  {
    has, word := false, 0;
    var idx: U16 := 0;
    while idx < n
      invariant idx <= n + 0x100
      invariant (if has then Some(word) else Scan(t, idx, n)) == Scan(t, 0, n)
    {
      var kind := t[idx];
      idx := idx + 1;
      var len := t[idx];
      idx := idx + 1;
      if kind == 2 && len == 6 && !has {
        if t[idx] == 0xAA && t[idx + 5] == 0x55 {
          has, word := true, Le32(t[idx + 1], t[idx + 2], t[idx + 3], t[idx + 4]);
        }
      }
      idx := idx + len;
    }
  }

  /** One record of a trailer. */
  datatype Tlv = Tlv(kind: Byte, body: seq<Byte>)

  function Encode(rs: seq<Tlv>): (s: seq<Byte>)
    requires forall i :: 0 <= i < |rs| ==> |rs[i].body| <= 0xFF
  {
    if |rs| == 0 then [] else [rs[0].kind, |rs[0].body|] + rs[0].body + Encode(rs[1..])
  }

  predicate Lookahead(r: Tlv) {
    r.kind == 2 && |r.body| == 6 && r.body[0] == 0xAA && r.body[5] == 0x55
  }

  /** The word of the first lookahead record. */
  function FirstLookahead(rs: seq<Tlv>): (r: Option<U32>) {
    if |rs| == 0 then None
    else if Lookahead(rs[0]) then Some(Le32(rs[0].body[1], rs[0].body[2], rs[0].body[3], rs[0].body[4]))
    else FirstLookahead(rs[1..])
  }

  /** What the scan sees of one record. */
  lemma HeadItem(pre: seq<Byte>, r: Tlv, rest: seq<Byte>)
    requires |r.body| <= 0xFF && |rest| >= 7
    ensures var t := pre + Record(r) + rest;
            && t[|pre| + 1] == |r.body|
            && (ItemAt(t, |pre|) <==> Lookahead(r))
            && (Lookahead(r) ==>
                  Le32(t[|pre| + 3], t[|pre| + 4], t[|pre| + 5], t[|pre| + 6]) ==
                  Le32(r.body[1], r.body[2], r.body[3], r.body[4]))
  {
    hide Le32;
    var one: seq<Byte> := [r.kind, |r.body|] + r.body;
    var t := pre + one + rest;
    assert forall k :: 0 <= k < |one| ==> t[|pre| + k] == one[k];
    assert t[|pre|] == one[0] && t[|pre| + 1] == one[1];
    if |r.body| == 6 {
      assert t[|pre| + 2] == one[2] == r.body[0] && t[|pre| + 7] == one[7] == r.body[5];
      assert t[|pre| + 3] == one[3] && t[|pre| + 4] == one[4] && t[|pre| + 5] == one[5] && t[|pre| + 6] == one[6];
    }
  }

  /** Scanning from where the records `rs` begin. */
  lemma {:induction false} ScanRecords(pre: seq<Byte>, rs: seq<Tlv>, post: seq<Byte>)
    requires forall i :: 0 <= i < |rs| ==> |rs[i].body| <= 0xFF
    requires |post| >= 7
    ensures Scan(pre + Encode(rs) + post, |pre|, |pre| + |Encode(rs)|) == FirstLookahead(rs)
    decreases |rs|
  {
    if |rs| > 0 {
      var one, rest := Record(rs[0]), Encode(rs[1..]) + post;
      EncodeStep(pre, rs, post);
      ScanRecords(pre + one, rs[1..], post);
      HeadItem(pre, rs[0], rest);
      hide ItemAt, Le32, Lookahead, Encode, Record;
      ScanStep(pre + one + rest, |pre|, |pre| + |Encode(rs)|);
    }
  }

  function Record(r: Tlv): (s: seq<Byte>)
    requires |r.body| <= 0xFF
    ensures |s| == 2 + |r.body|
  {
    [r.kind, |r.body|] + r.body
  }

  lemma EncodeStep(pre: seq<Byte>, rs: seq<Tlv>, post: seq<Byte>)
    requires |rs| > 0 && forall i :: 0 <= i < |rs| ==> |rs[i].body| <= 0xFF
    ensures var one := Record(rs[0]);
            && |Encode(rs)| == |one| + |Encode(rs[1..])|
            && pre + Encode(rs) + post == pre + one + (Encode(rs[1..]) + post)
            && pre + Encode(rs) + post == (pre + one) + Encode(rs[1..]) + post
  {}

  lemma ScanStep(t: seq<Byte>, i: nat, n: nat)
    requires i < n && n + 7 <= |t|
    ensures Scan(t, i, n) ==
            if ItemAt(t, i) then Some(Le32(t[i + 3], t[i + 4], t[i + 5], t[i + 6])) else Scan(t, i + 2 + t[i + 1], n)
  {
    hide ItemAt, Le32;
  }

  /** For every list of records that fits the 8-bit trailer length, the scan
      yields the first lookahead record, or nothing when there is none. */
  lemma ScanEncoded(rs: seq<Tlv>, post: seq<Byte>)
    requires forall i :: 0 <= i < |rs| ==> |rs[i].body| <= 0xFF
    requires |Encode(rs)| <= 0xFF && |post| >= 7
    ensures Scan(Encode(rs) + post, 0, |Encode(rs)|) == FirstLookahead(rs)
  {
    ScanRecords([], rs, post);
    assert [] + Encode(rs) + post == Encode(rs) + post;
  }

  /** Encoded records are whole records. */
  lemma {:induction false} EncodedTiled(pre: seq<Byte>, rs: seq<Tlv>, post: seq<Byte>)
    requires forall i :: 0 <= i < |rs| ==> |rs[i].body| <= 0xFF
    requires |post| >= 7
    ensures Tiled(pre + Encode(rs) + post, |pre|, |pre| + |Encode(rs)|)
    decreases |rs|
  {
    if |rs| > 0 {
      var one, rest := Record(rs[0]), Encode(rs[1..]) + post;
      EncodeStep(pre, rs, post);
      EncodedTiled(pre + one, rs[1..], post);
      HeadItem(pre, rs[0], rest);
      hide ItemAt, Le32, Lookahead, Encode, Record;
    }
  }
}
