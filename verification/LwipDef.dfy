/** String helpers of arm_host/source/lwip/def.c: lwip_itoa, lwip_strnicmp and
    lwip_strnistr. Characters are bytes; a C string ends at its first 0. */
module LwipDef {
  import opened Words

  // lwip_itoa

  /** Decimal digits of a positive number, without leading zeros. */
  function Digits(n: nat): (s: seq<Byte>) {
    if n == 0 then [] else Digits(n / 10) + [0x30 + n % 10]
  }

  function Abs(x: int): (r: nat) { if x < 0 then -x else x }

  /** The canonical decimal text of a number. */
  function Text(x: int): (s: seq<Byte>) {
    if x == 0 then [0x30] else (if x < 0 then [0x2D] else []) + Digits(Abs(x))
  }

  /** The value a reader of decimal digits computes. */
  function Value(s: seq<Byte>): (n: int) {
    if |s| == 0 then 0 else 10 * Value(s[..|s| - 1]) + (s[|s| - 1] as int) - 0x30
  }

  function Parse(s: seq<Byte>): (x: int) {
    if |s| > 0 && s[0] == 0x2D then -Value(s[1..]) else Value(s)
  }

  lemma {:induction false} DigitsParse(n: nat)
    ensures Value(Digits(n)) == n
    ensures forall k :: 0 <= k < |Digits(n)| ==> 0x30 <= Digits(n)[k] <= 0x39
    ensures n > 0 ==> |Digits(n)| > 0 && Digits(n)[0] != 0x30
  {
    if n > 0 {
      DigitsParse(n / 10);
      var s := Digits(n);
      assert s[..|s| - 1] == Digits(n / 10);
    }
  }

  /** The text parses back, and holds no NUL that would cut it short. */
  lemma TextParses(x: int)
    ensures Parse(Text(x)) == x && 0 !in Text(x)
  {
    DigitsParse(Abs(x));
    if x == 0 {
      assert [0x30][..0] == [];
    } else if x < 0 {
      assert Text(x)[1..] == Digits(-x);
    } else {
      assert Text(x) == Digits(x) && Digits(x)[0] != 0x2D;
    }
  }

  /** The C string at the start of a buffer. */
  function CString(s: seq<Byte>): (t: seq<Byte>) {
    if |s| == 0 || s[0] == 0 then [] else [s[0]] + CString(s[1..])
  }

  lemma {:induction false} CStringIs(t: seq<Byte>, rest: seq<Byte>)
    requires 0 !in t
    ensures CString(t + [0] + rest) == t
    decreases |t|
  {
    var s := t + [0] + rest;
    if |t| > 0 {
      assert s[1..] == t[1..] + [0] + rest && t[0] in t;
      CStringIs(t[1..], rest);
      assert t == [t[0]] + t[1..];
    }
  }

  /** The backward loop: digits of `n` in front of what is already there, as long
      as there is room above `res`. */
  method PutDigits(buf: array<Byte>, res: nat, end: nat, n0: nat) returns (n: nat, tmp: nat)
    requires res <= end < buf.Length
    modifies buf
    ensures res <= tmp <= end
    ensures Digits(n0) == Digits(n) + buf[tmp..end]
    ensures n != 0 ==> tmp == res
    ensures n == 0 ==> Digits(n0) == buf[tmp..end]
    ensures forall k :: 0 <= k < tmp || end <= k < buf.Length ==> buf[k] == old(buf[k])
  {
    n, tmp := n0, end;
    assert Digits(n0) == Digits(n) + [];
    while n != 0 && tmp > res
      invariant res <= tmp <= end
      invariant Digits(n0) == Digits(n) + buf[tmp..end]
      invariant forall k :: 0 <= k < tmp || end <= k < buf.Length ==> buf[k] == old(buf[k])
      decreases n
    {
      ghost var tail := buf[tmp..end];
      var val: Byte := 0x30 + n % 10;
      tmp := tmp - 1;
      buf[tmp] := val;
      assert buf[tmp..end] == [val] + tail;
      n := n / 10;
    }
  }

  /** memmove within the buffer. */
  method MoveDown(buf: array<Byte>, res: nat, tmp: nat, n: nat)
    requires res <= tmp && tmp + n <= buf.Length
    modifies buf
    ensures buf[..] == old(buf[..res] + buf[tmp..tmp + n] + buf[res + n..])
  {
    var s := buf[tmp..tmp + n];
    forall k | res <= k < res + n {
      buf[k] := s[k - res];
    }
  }

  /** The last step: digits and NUL slide down behind the sign. */
  method MoveText(result: array<Byte>, bufsize: nat, res: nat, tmp: nat, number: int)
    requires 0 < bufsize <= result.Length && res <= tmp < bufsize && number != 0
    requires result[..res] == (if number < 0 then [0x2D] else [])
    requires result[tmp..bufsize - 1] == Digits(Abs(number)) && result[bufsize - 1] == 0
    modifies result
    ensures CString(result[..]) == Text(number)
    ensures result[bufsize..] == old(result[bufsize..])
  {
    hide Digits, CString, Text;
    ghost var sign, digits := result[..res], result[tmp..bufsize - 1];
    assert result[tmp..bufsize] == digits + [0];
    MoveDown(result, res, tmp, bufsize - tmp);
    assert sign + digits + [0] <= result[..];
    TextString(number, result[..], sign, digits);
  }

  lemma NoDigits()
    ensures Digits(0) == []
  {}

  /** lwip_itoa once the buffer is known to hold at least two bytes. */
  method Format(result: array<Byte>, bufsize: nat, number: int)
    requires 2 <= bufsize <= result.Length
    modifies result
    ensures CString(result[..]) == if |Text(number)| + 1 <= bufsize then Text(number) else []
    ensures result[bufsize..] == old(result[bufsize..])
  {
    TextSize(number);
    hide Digits, CString, Text;
    var res, end, abs := 0, bufsize - 1, Abs(number);
    if number < 0 {
      result[0] := 0x2D;
      res := 1;
    }
    result[end] := 0;
    var n, tmp := PutDigits(result, res, end, abs);
    if n != 0 {
      TooSmall(number, n, result[tmp..end]);
      result[0] := 0;
      EmptyString(result[..]);
      return;
    }
    if result[tmp] == 0 {
      NothingAdded(number, result[tmp..end], result[tmp]);
      result[res] := 0x30;
      result[res + 1] := 0;
      TextString(number, result[..], [], [0x30]);
      return;
    }
    NoDigits();
    MoveText(result, bufsize, res, tmp, number);
  }

  /** lwip_itoa: the canonical text and its NUL if they fit the buffer, else the
      empty string; nothing beyond `bufsize` is touched. The negation of the
      most negative int is undefined in C. */
  method Itoa(result: array<Byte>, bufsize: nat, number: int)
    requires bufsize <= result.Length && -0x8000_0000 < number < 0x8000_0000
    modifies result
    ensures bufsize > 0 ==>
              CString(result[..]) == if |Text(number)| + 1 <= bufsize then Text(number) else []
    ensures result[bufsize..] == old(result[bufsize..])
    ensures bufsize == 0 ==> result[..] == old(result[..])
  {
    TextSize(number);
    hide Text;
    if bufsize < 2 {
      if bufsize == 1 {
        result[0] := 0;
      }
      return;
    }
    Format(result, bufsize, number);
  }

  /** A buffer that begins with sign, digits and NUL reads as the number. */
  lemma TextString(x: int, s: seq<Byte>, sign: seq<Byte>, digits: seq<Byte>)
    requires sign == (if x < 0 then [0x2D] else [])
    requires if x == 0 then digits == [0x30] else digits == Digits(Abs(x))
    requires sign + digits + [0] <= s
    ensures CString(s) == Text(x)
  {
    TextParses(x);
    assert sign + digits == Text(x);
    CStringIs(Text(x), s[|Text(x)| + 1..]);
    assert s == Text(x) + [0] + s[|Text(x)| + 1..];
  }

  lemma NothingAdded(x: int, added: seq<Byte>, first: Byte)
    requires added == Digits(Abs(x)) && first == (if |added| > 0 then added[0] else 0) && first == 0
    ensures x == 0
  {
    DigitsParse(Abs(x));
  }

  lemma EmptyString(s: seq<Byte>)
    requires |s| > 0 && s[0] == 0
    ensures CString(s) == []
  {}

  lemma TextSize(x: int)
    ensures |Text(x)| > 0 && (x == 0 ==> |Text(x)| == 1)
    ensures x != 0 ==> |Text(x)| == |Digits(Abs(x))| + if x < 0 then 1 else 0
  {
    DigitsParse(Abs(x));
  }

  lemma TooSmall(x: int, n: nat, tail: seq<Byte>)
    requires n != 0 && Digits(Abs(x)) == Digits(n) + tail
    ensures |Text(x)| > |tail| + if x < 0 then 1 else 0
  {
    DigitsParse(n);
    DigitsParse(Abs(x));
  }

  // lwip_strnicmp and lwip_strnistr

  /** ASCII case folding. */
  function Lower(c: Byte): (r: Byte) {
    if 0x41 <= c <= 0x5A then c + 0x20 else c
  }

  /** c | 0x20. */
  function Or20(c: Byte): (r: Byte) {
    if c / 0x20 % 2 == 0 then c + 0x20 else c
  }

  /** The comparison the code makes of two characters. */
  predicate CharsMatch(c1: Byte, c2: Byte) {
    c1 == c2 || (0x61 <= Or20(c1) <= 0x7A && Or20(c1) == Or20(c2))
  }

  /** It is equality up to case: the bit trick only ever joins two forms of the
      same letter. */
  lemma MatchIsFolding(c1: Byte, c2: Byte)
    ensures CharsMatch(c1, c2) <==> Lower(c1) == Lower(c2)
  {}

  /** The first `n` characters agree, or all of them up to a common NUL. */
  ghost predicate SameFold(a: seq<Byte>, b: seq<Byte>, n: nat) {
    exists m :: FoldsTo(a, b, n, m)
  }

  predicate FoldsTo(a: seq<Byte>, b: seq<Byte>, n: nat, m: int) {
    && 0 <= m <= n && m <= |a| && m <= |b|
    && (forall i :: 0 <= i < m ==> Lower(a[i]) == Lower(b[i]))
    && (m == n || (m > 0 && a[m - 1] == 0))
  }

  /** A string that can be compared over `n` characters. */
  predicate Readable(s: seq<Byte>, n: nat) {
    n <= |s| || 0 in s
  }

  /** How many characters lwip_strnicmp compares at most. It counts down before
      it tests for 0, so a length of 0 wraps around and is no limit at all. */
  function Limit(n: U32): (m: nat) {
    if n == 0 then 0x1_0000_0000 else n
  }

  /** lwip_strnicmp; 0 means equal. */
  method StrNiCmp(a: seq<Byte>, b: seq<Byte>, n: U32) returns (r: int)
    requires Readable(a, Limit(n)) && Readable(b, Limit(n))
    ensures r == 0 || r == 1
    ensures r == 0 <==> SameFold(a, b, Limit(n))
  {
    ghost var m := Limit(n);
    var i, len: U32 := 0, n;
    while true
      invariant 0 <= i < m && len == (if i == 0 then n else m - i) && i <= |a| && i <= |b|
      invariant forall k :: 0 <= k < i ==> Lower(a[k]) == Lower(b[k]) && a[k] != 0
      decreases m - i
    {
      assert i < |a| && i < |b| by {
        assert 0 in a ==> i < |a|;
        assert forall k :: 0 <= k < i ==> b[k] != 0;
      }
      var c1, c2 := a[i], b[i];
      MatchIsFolding(c1, c2);
      assert !CharsMatch(c1, c2) ==> forall k :: !FoldsTo(a, b, m, k);
      if c1 != c2 {
        if 0x61 <= Or20(c1) <= 0x7A {
          if Or20(c1) != Or20(c2) {
            return 1;
          }
        } else {
          return 1;
        }
      }
      len, i := Add32(len, -1), i + 1;
      if !(len != 0 && c1 != 0) {
        break;
      }
    }
    assert FoldsTo(a, b, m, i);
    r := 0;
  }

  /** The token stands at `p`, up to case. */
  predicate FoundAt(buf: seq<Byte>, token: seq<Byte>, p: nat) {
    p + |token| <= |buf| && forall k :: 0 <= k < |token| ==> Lower(buf[p + k]) == Lower(token[k])
  }

  /** `p` is an answer: a match wholly within the first `n` bytes, with no NUL
      in front of it. */
  predicate Answer(buf: seq<Byte>, token: seq<Byte>, n: nat, p: nat) {
    FoundAt(buf, token, p) && p + |token| <= n && 0 !in buf[..p + |token|]
  }

  /** lwip_strnistr: the least answer, or none. Its scan tests for a NUL before it
      tests for the end, so a buffer without one must hold a byte past the last
      place where the token could start. */
  method StrNiStr(buf: seq<Byte>, token: seq<Byte>, n: nat) returns (r: Option<nat>)
    requires 0 !in token && |token| < 0x1_0000_0000
    requires |token| > 0 ==> 0 in buf || |buf| > n || (|buf| == n > 0 && |token| > 1)
    ensures |token| == 0 ==> r == Some(0)
    ensures r.Some? && |token| > 0 ==> Answer(buf, token, n, r.value)
    ensures r.Some? ==> forall q :: 0 <= q < r.value ==> !Answer(buf, token, n, q)
    ensures r.None? ==> forall q :: 0 <= q ==> !Answer(buf, token, n, q)
  {
    if |token| == 0 {
      return Some(0);
    }
    var p := 0;
    while buf[p] != 0 && p + |token| <= n
      invariant 0 <= p < |buf| && p <= n + 1 && 0 !in buf[..p]
      invariant forall q :: 0 <= q < p ==> !Answer(buf, token, n, q)
      decreases n - p
    {
      InRest(buf, p);
      var c := StrNiCmp(buf[p..], token, |token|);
      if c == 0 {
        EqualMeansFound(buf, token, p);
        assert buf[..p + |token|] == buf[..p] + buf[p..p + |token|];
        return Some(p);
      }
      FoundMeansEqual(buf, token, p);
      p := p + 1;
    }
    return None;
  }

  lemma InRest(buf: seq<Byte>, p: nat)
    requires p < |buf| && 0 !in buf[..p]
    ensures 0 in buf ==> 0 in buf[p..]
  {
    if 0 in buf {
      var k :| 0 <= k < |buf| && buf[k] == 0;
      assert k >= p && buf[p..][k - p] == 0;
    }
  }

  lemma FoundMeansEqual(buf: seq<Byte>, token: seq<Byte>, p: nat)
    requires p <= |buf|
    ensures FoundAt(buf, token, p) ==> SameFold(buf[p..], token, |token|)
  {
    if FoundAt(buf, token, p) {
      assert forall k :: 0 <= k < |token| ==> buf[p..][k] == buf[p + k];
      assert FoldsTo(buf[p..], token, |token|, |token|);
    }
  }

  /** A token without NUL is equal only where it stands in full. */
  lemma EqualMeansFound(buf: seq<Byte>, token: seq<Byte>, p: nat)
    requires p <= |buf| && |token| > 0 && 0 !in token
    requires SameFold(buf[p..], token, |token|)
    ensures FoundAt(buf, token, p) && 0 !in buf[p..p + |token|]
  {
    var a := buf[p..];
    var m :| FoldsTo(a, token, |token|, m);
    forall i | 0 <= i < m
      ensures buf[p + i] == a[i] && a[i] != 0 && Lower(buf[p + i]) == Lower(token[i])
    {
      assert token[i] in token;
    }
    assert m == |token|;
    assert forall k :: 0 <= k < |token| ==> buf[p..p + |token|][k] == a[k];
  }
}
