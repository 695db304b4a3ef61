/** Uploading memory through the boot interface:
    wifi_card_bmi_write_memory, wifi_card_bmi_cmd_write_memory and the register
    writes below them, of arm_iop/source/wifi_card.twl.c. The device is an
    interpreter of the byte writes that reach its function-1 registers. */
module BmiUpload {
  import opened Words

  const M := 0x1_0000_0000
  const MBOX := 0xFF
  const WINDOW_DATA := 0x474
  const WINDOW_WRITE_ADDR := 0x478
  const BMI_WRITE_MEMORY := 3
  const CHUNK := 0x1F0

  /** One CMD52 write of a function-1 register. */
  datatype RegWrite = RegWrite(reg: nat, val: Byte)

  // The device.

  /** The boot loader is collecting a command, or storing the bytes of one. */
  datatype Loader = Collect(buf: seq<Byte>) | Store(at: nat, left: nat)

  /** Memory is what has been written; addresses are 32 bits wide. The window
      registers hold four bytes each. */
  datatype Device = Device(mem: map<int, Byte>, loader: Loader, data: map<int, Byte>, addr: map<int, Byte>)

  /** A byte arrives in mailbox 0. Commands other than a memory write are not
      part of this model and end at their command word. */
  function Feed(d: Device, b: Byte): (r: Device) {
    match d.loader
    case Collect(buf) =>
      var s := buf + [b];
      if |s| == 4 && LeAt(s, 0) != BMI_WRITE_MEMORY then d.(loader := Collect([]))
      else if |s| == 12 then
        var n := LeAt(s, 8);
        d.(loader := if n == 0 then Collect([]) else Store(LeAt(s, 4), n))
      else d.(loader := Collect(s))
    case Store(at, left) =>
      d.(mem := d.mem[at % M := b], loader := if left <= 1 then Collect([]) else Store(at + 1, left - 1))
  }

  function Get(m: map<int, Byte>, k: int): (b: Byte) { if k in m then m[k] else 0 }

  /** The word in the data window goes to memory when the lowest byte of the
      write address arrives. */
  function Write(d: Device, w: RegWrite): (r: Device) {
    if w.reg == MBOX then Feed(d, w.val)
    else if WINDOW_DATA <= w.reg < WINDOW_DATA + 4 then d.(data := d.data[w.reg - WINDOW_DATA := w.val])
    else if WINDOW_WRITE_ADDR < w.reg < WINDOW_WRITE_ADDR + 4 then
      d.(addr := d.addr[w.reg - WINDOW_WRITE_ADDR := w.val])
    else if w.reg == WINDOW_WRITE_ADDR then
      var a := Le32(w.val, Get(d.addr, 1), Get(d.addr, 2), Get(d.addr, 3));
      d.(addr := d.addr[0 := w.val],
         mem := Stored(d.mem, a, [Get(d.data, 0), Get(d.data, 1), Get(d.data, 2), Get(d.data, 3)]))
    else d
  }

  function Apply(d: Device, ws: seq<RegWrite>): (r: Device)
    decreases |ws|
  {
    if |ws| == 0 then d else Apply(Write(d, ws[0]), ws[1..])
  }

  predicate Idle(d: Device) { d.loader == Collect([]) }

  /** Memory with the bytes `s` stored from `a` on. */
  function Stored(mem: map<int, Byte>, a: nat, s: seq<Byte>): (r: map<int, Byte>)
    decreases |s|
  {
    if |s| == 0 then mem else Stored(mem[a % M := s[0]], a + 1, s[1..])
  }

  lemma {:induction false} StoredConcat(mem: map<int, Byte>, a: nat, s: seq<Byte>, t: seq<Byte>)
    ensures Stored(mem, a, s + t) == Stored(Stored(mem, a, s), a + |s|, t)
    decreases |s|
  {
    if |s| == 0 {
      assert s + t == t;
    } else {
      assert (s + t)[1..] == s[1..] + t;
      StoredConcat(mem[a % M := s[0]], a + 1, s[1..], t);
    }
  }

  lemma {:induction false} StoredWraps(mem: map<int, Byte>, a: nat, b: nat, s: seq<Byte>)
    requires a % M == b % M
    ensures Stored(mem, a, s) == Stored(mem, b, s)
    decreases |s|
  {
    if |s| > 0 {
      assert (a + 1) % M == (b + 1) % M;
      StoredWraps(mem[a % M := s[0]], a + 1, b + 1, s[1..]);
    }
  }

  /** How far `x` lies beyond `a`, around the 32-bit address space. */
  function Offset(x: nat, a: nat): (o: nat)
    ensures o < M
  {
    (x - a) % M
  }

  lemma OffsetSteps(x: nat, a: nat)
    requires x < M
    ensures x == a % M <==> Offset(x, a) == 0
    ensures Offset(x, a + 1) == if Offset(x, a) == 0 then M - 1 else Offset(x, a) - 1
  {}

  /** What storing means, address by address: `s` from `a` on, and everything
      else as it was. */
  lemma {:induction false} StoredAt(mem: map<int, Byte>, a: nat, s: seq<Byte>, x: nat)
    requires |s| <= M && x < M
    ensures var r := Stored(mem, a, s);
            if Offset(x, a) < |s| then x in r && r[x] == s[Offset(x, a)]
            else (x in r <==> x in mem) && (x in mem ==> r[x] == mem[x])
    decreases |s|
  {
    if |s| > 0 {
      OffsetSteps(x, a);
      hide Offset;
      StoredAt(mem[a % M := s[0]], a + 1, s[1..], x);
    }
  }

  // What the driver sends.

  /** Bytes written one by one to mailbox 0. */
  function ToMbox(s: seq<Byte>): (ws: seq<RegWrite>)
    ensures |ws| == |s|
  {
    seq(|s|, i requires 0 <= i < |s| => RegWrite(MBOX, s[i]))
  }

  function Zeros(n: nat): (s: seq<Byte>)
    ensures |s| == n
  {
    seq(n, _ => 0)
  }

  /** A 32-bit register, most significant byte first. */
  function ToReg32(reg: nat, val: U32): (ws: seq<RegWrite>) {
    var b := PutLe32(val);
    [RegWrite(reg + 3, b[3]), RegWrite(reg + 2, b[2]), RegWrite(reg + 1, b[1]), RegWrite(reg, b[0])]
  }

  function CommandHeader(addr: U32, n: U32): (h: seq<Byte>)
    ensures |h| == 12
  {
    PutLe32(BMI_WRITE_MEMORY) + PutLe32(addr) + PutLe32(n)
  }

  /** The writes of one command: the window registers for a single word, else
      a mailbox command padded with `len % 4` zero bytes. */
  function Command(addr: U32, data: seq<Byte>): (ws: seq<RegWrite>)
    requires |data| < 0x8000_0000
  {
    if |data| == 4
    then ToReg32(WINDOW_DATA, LeAt(data, 0)) + ToReg32(WINDOW_WRITE_ADDR, addr)
    else ToMbox(CommandHeader(addr, |data| + |data| % 4) + data + Zeros(|data| % 4))
  }

  lemma {:induction false} ApplyConcat(d: Device, v: seq<RegWrite>, w: seq<RegWrite>)
    ensures Apply(d, v + w) == Apply(Apply(d, v), w)
    decreases |v|
  {
    if |v| == 0 {
      assert v + w == w;
    } else {
      assert (v + w)[1..] == v[1..] + w;
      ApplyConcat(Write(d, v[0]), v[1..], w);
    }
  }

  lemma MboxConcat(s: seq<Byte>, t: seq<Byte>)
    ensures ToMbox(s + t) == ToMbox(s) + ToMbox(t)
  {}

  lemma MboxFirst(d: Device, s: seq<Byte>)
    requires |s| > 0
    ensures Apply(d, ToMbox(s)) == Apply(Feed(d, s[0]), ToMbox(s[1..]))
  {
    assert ToMbox(s)[1..] == ToMbox(s[1..]);
    assert ToMbox(s)[0] == RegWrite(MBOX, s[0]);
    hide Feed;
  }

  /** A store command takes exactly the bytes it asked for. */
  lemma {:induction false} StoreBytes(d: Device, s: seq<Byte>)
    requires |s| > 0 && d.loader.Store? && d.loader.left == |s|
    ensures Apply(d, ToMbox(s)) == d.(mem := Stored(d.mem, d.loader.at, s), loader := Collect([]))
    decreases |s|
  {
    MboxFirst(d, s);
    if |s| == 1 {
      assert Apply(Feed(d, s[0]), ToMbox(s[1..])) == Feed(d, s[0]);
      assert Stored(d.mem[d.loader.at % M := s[0]], d.loader.at + 1, s[1..]) == d.mem[d.loader.at % M := s[0]];
    } else {
      StoreBytes(Feed(d, s[0]), s[1..]);
    }
  }

  /** The loader gathers a command word by word. */
  lemma {:induction false} CollectBytes(d: Device, buf: seq<Byte>, h: seq<Byte>, k: nat)
    requires |h| == 12 && k < 12 && buf == h[..k] && d.loader == Collect(buf)
    requires LeAt(h, 0) == BMI_WRITE_MEMORY && LeAt(h, 8) > 0
    ensures Apply(d, ToMbox(h[k..])) ==
            d.(loader := Store(LeAt(h, 4), LeAt(h, 8)))
    decreases 12 - k
  {
    MboxFirst(d, h[k..]);
    assert h[k..][1..] == h[k + 1..] && h[k..][0] == h[k];
    var s := buf + [h[k]];
    assert s == h[..k + 1];
    assert |s| == 4 ==> LeAt(s, 0) == LeAt(h, 0);
    hide LeAt;
    if k == 11 {
      assert s == h && ToMbox(h[12..]) == [];
    } else {
      CollectBytes(Feed(d, h[k]), s, h, k + 1);
    }
  }

  lemma Slices(a: seq<Byte>, b: seq<Byte>, c: seq<Byte>)
    requires |a| == |b| == |c| == 4
    ensures LeAt(a + b + c, 0) == LeAt(a, 0)
    ensures LeAt(a + b + c, 4) == LeAt(b, 0)
    ensures LeAt(a + b + c, 8) == LeAt(c, 0)
  {
    hide Le32;
    var h := a + b + c;
    assert h[0] == a[0] && h[1] == a[1] && h[2] == a[2] && h[3] == a[3];
    assert h[4] == b[0] && h[5] == b[1] && h[6] == b[2] && h[7] == b[3];
    assert h[8] == c[0] && h[9] == c[1] && h[10] == c[2] && h[11] == c[3];
  }

  lemma HeaderWords(addr: U32, n: U32)
    ensures LeAt(CommandHeader(addr, n), 0) == BMI_WRITE_MEMORY
    ensures LeAt(CommandHeader(addr, n), 4) == addr
    ensures LeAt(CommandHeader(addr, n), 8) == n
  {
    PutThenGet(BMI_WRITE_MEMORY);
    PutThenGet(addr);
    PutThenGet(n);
    hide PutLe32, LeAt;
    Slices(PutLe32(BMI_WRITE_MEMORY), PutLe32(addr), PutLe32(n));
  }

  lemma Gathered(d: Device, addr: U32, n: U32)
    requires Idle(d) && n > 0
    ensures Apply(d, ToMbox(CommandHeader(addr, n))) == d.(loader := Store(addr, n))
  {
    HeaderWords(addr, n);
    hide LeAt, CommandHeader, Apply;
    var h := CommandHeader(addr, n);
    assert h[..0] == [] && h[0..] == h;
    CollectBytes(d, [], h, 0);
  }

  /** A mailbox command whose declared length is the number of bytes behind it
      stores those bytes and leaves the loader ready for the next. */
  lemma MboxCommand(d: Device, addr: U32, body: seq<Byte>)
    requires Idle(d) && 0 < |body| < M
    ensures Apply(d, ToMbox(CommandHeader(addr, |body|) + body)) == d.(mem := Stored(d.mem, addr, body))
  {
    hide CommandHeader, Stored, Apply;
    var h := CommandHeader(addr, |body|);
    Gathered(d, addr, |body|);
    MboxConcat(h, body);
    ApplyConcat(d, ToMbox(h), ToMbox(body));
    StoreBytes(d.(loader := Store(addr, |body|)), body);
  }

  lemma ApplyFour(d: Device, ws: seq<RegWrite>)
    requires |ws| == 4
    ensures Apply(d, ws) == Write(Write(Write(Write(d, ws[0]), ws[1]), ws[2]), ws[3])
  {
    hide Write;
    var d1 := Write(d, ws[0]);
    assert Apply(d, ws) == Apply(d1, ws[1..]);
    var d2 := Write(d1, ws[1..][0]);
    assert Apply(d1, ws[1..]) == Apply(d2, ws[1..][1..]);
    var d3 := Write(d2, ws[1..][1..][0]);
    assert Apply(d2, ws[1..][1..]) == Apply(d3, ws[1..][1..][1..]);
    var d4 := Write(d3, ws[1..][1..][1..][0]);
    assert Apply(d3, ws[1..][1..][1..]) == Apply(d4, ws[1..][1..][1..][1..]) == d4;
  }

  lemma SetData(d: Device, u: U32)
    ensures var r := Apply(d, ToReg32(WINDOW_DATA, u));
            var b := PutLe32(u);
            && r.mem == d.mem && r.loader == d.loader
            && Get(r.data, 0) == b[0] && Get(r.data, 1) == b[1] && Get(r.data, 2) == b[2] && Get(r.data, 3) == b[3]
  {
    ApplyFour(d, ToReg32(WINDOW_DATA, u));
    hide PutLe32, Stored, Feed;
  }

  lemma SetAddr(d: Device, a: U32)
    ensures var r := Apply(d, ToReg32(WINDOW_WRITE_ADDR, a));
            && r.loader == d.loader
            && r.mem == Stored(d.mem, a, [Get(d.data, 0), Get(d.data, 1), Get(d.data, 2), Get(d.data, 3)])
  {
    ApplyFour(d, ToReg32(WINDOW_WRITE_ADDR, a));
    PutThenGet(a);
    hide PutLe32, Stored, Feed, Le32;
  }

  /** The 4-byte shortcut through the window registers. */
  lemma WindowWord(d: Device, addr: U32, data: seq<Byte>)
    requires |data| == 4
    ensures var r := Apply(d, Command(addr, data));
            r.loader == d.loader && r.mem == Stored(d.mem, addr, data)
  {
    hide Stored, ToReg32, Apply, PutLe32, LeAt, Get;
    var u := LeAt(data, 0);
    GetThenPut(data);
    SetData(d, u);
    var d1 := Apply(d, ToReg32(WINDOW_DATA, u));
    SetAddr(d1, addr);
    ApplyConcat(d, ToReg32(WINDOW_DATA, u), ToReg32(WINDOW_WRITE_ADDR, addr));
    assert [Get(d1.data, 0), Get(d1.data, 1), Get(d1.data, 2), Get(d1.data, 3)] == data;
  }

  /** One command stores the data and `len % 4` zero bytes behind it. */
  lemma CommandEffect(d: Device, addr: U32, data: seq<Byte>)
    requires Idle(d) && 0 < |data| < 0x8000_0000
    ensures var r := Apply(d, Command(addr, data));
            Idle(r) && r.mem == Stored(d.mem, addr, data + Zeros(|data| % 4))
  {
    hide Stored, Apply, CommandHeader;
    if |data| == 4 {
      WindowWord(d, addr, data);
      assert data + Zeros(0) == data;
    } else {
      var body := data + Zeros(|data| % 4);
      MboxCommand(d, addr, body);
      assert CommandHeader(addr, |body|) + data + Zeros(|data| % 4) == CommandHeader(addr, |body|) + body;
    }
  }

  /** The shortcut stores what the mailbox command would have stored. */
  lemma ShortcutSame(d: Device, addr: U32, data: seq<Byte>)
    requires Idle(d) && |data| == 4
    ensures Apply(d, Command(addr, data)).mem == Apply(d, ToMbox(CommandHeader(addr, 4) + data)).mem
  {
    WindowWord(d, addr, data);
    MboxCommand(d, addr, data);
    hide Stored, Apply, CommandHeader, Command;
  }

  function Frag(i: nat, n: nat): (f: nat)
    requires i < n
    ensures 0 < f <= CHUNK && i + f <= n
  {
    if i + CHUNK > n then n - i else CHUNK
  }

  /** The commands for `data` from offset `i` on. */
  function Chunks(addr: U32, data: seq<Byte>, i: nat): (ws: seq<RegWrite>)
    requires |data| < 0x8000_0000
    decreases |data| - i
  {
    if i >= |data| then []
    else Command((addr + i) % M, data[i..i + Frag(i, |data|)]) + Chunks(addr, data, i + CHUNK)
  }

  lemma ChunksStep(addr: U32, data: seq<Byte>, i: nat)
    requires i < |data| < 0x8000_0000
    ensures Chunks(addr, data, i) ==
            Command((addr + i) % M, data[i..i + Frag(i, |data|)]) + Chunks(addr, data, i + CHUNK)
  {
    hide Command;
  }

  /** One fragment, with the padding its own length asks for. */
  lemma FragmentEffect(d: Device, addr: U32, data: seq<Byte>, i: nat, f: nat)
    requires Idle(d) && i + f <= |data| < 0x8000_0000 && 0 < f
    ensures var r := Apply(d, Command((addr + i) % M, data[i..i + f]));
            Idle(r) && r.mem == Stored(d.mem, addr + i, data[i..i + f] + Zeros(f % 4))
  {
    hide Stored, Apply, Command;
    var a := (addr + i) % M;
    CommandEffect(d, a, data[i..i + f]);
    StoredWraps(d.mem, a, addr + i, data[i..i + f] + Zeros(f % 4));
  }

  lemma {:induction false} ChunksEffect(d: Device, addr: U32, data: seq<Byte>, i: nat)
    requires Idle(d) && i < |data| < 0x8000_0000 && i % CHUNK == 0
    ensures var r := Apply(d, Chunks(addr, data, i));
            Idle(r) && r.mem == Stored(d.mem, addr + i, data[i..] + Zeros(|data| % 4))
    decreases |data| - i
  {
    hide Stored, Apply, Command, Chunks;
    var f := Frag(i, |data|);
    var part := data[i..i + f];
    var c := Command((addr + i) % M, part);
    ChunksStep(addr, data, i);
    ApplyConcat(d, c, Chunks(addr, data, i + CHUNK));
    FragmentEffect(d, addr, data, i, f);
    var d1 := Apply(d, c);
    if i + CHUNK < |data| {
      ChunksEffect(d1, addr, data, i + CHUNK);
      var tail := data[i + CHUNK..] + Zeros(|data| % 4);
      assert part + Zeros(f % 4) == part && part + tail == data[i..] + Zeros(|data| % 4);
      StoredConcat(d.mem, addr + i, part, tail);
    } else {
      LastFragment(i, |data|);
      assert part == data[i..];
      NoMore(d1, addr, data, i + CHUNK);
    }
  }

  /** The last fragment is as far from a multiple of 4 as the whole. */
  lemma LastFragment(i: nat, n: nat)
    requires i < n <= i + CHUNK && i % CHUNK == 0
    ensures Frag(i, n) == n - i && (n - i) % 4 == n % 4
  {}

  lemma NoMore(d: Device, addr: U32, data: seq<Byte>, i: nat)
    requires |data| <= i && |data| < 0x8000_0000
    ensures Apply(d, Chunks(addr, data, i)) == d
  {}

  /** Upload, for every length below 2^31: the device ends ready, with `data` on
      [addr, addr + len), `len % 4` zero bytes behind it, and every other
      address as it was. */
  lemma UploadEffect(d: Device, addr: U32, data: seq<Byte>, x: nat)
    requires Idle(d) && |data| < 0x8000_0000 && x < M
    ensures var r := Apply(d, Chunks(addr, data, 0));
            && Idle(r)
            && var o := Offset(x, addr);
               if o < |data| then x in r.mem && r.mem[x] == data[o]
               else if o < |data| + |data| % 4 then x in r.mem && r.mem[x] == 0
               else (x in r.mem <==> x in d.mem) && (x in d.mem ==> r.mem[x] == d.mem[x])
  {
    hide Stored, Apply, Chunks, Offset;
    if |data| == 0 {
      NoMore(d, addr, data, 0);
    } else {
      ChunksEffect(d, addr, data, 0);
      assert data[0..] == data;
      StoredAt(d.mem, addr, data + Zeros(|data| % 4), x);
    }
  }

  // Where the bytes come from: `front` is what lies in front of them in memory, from
  // a multiple of 4 on, so that its length tells their alignment.

  /** The four bytes a 32-bit load of ARM7 yields: the aligned word, rotated so that
      the addressed byte comes first. */
  function Rotated(front: seq<Byte>, word: seq<Byte>): (s: seq<Byte>)
    requires |word| == 4
    ensures |s| == 4
  {
    var k := |front| % 4;
    word[..4 - k] + front[|front| - k..]
  }

  /** The last fragment has 4 bytes. */
  predicate WordLast(len: nat) { len >= 4 && len % CHUNK == 4 }

  /** What an upload of `data` sends: the bytes, except that a last fragment of 4 is
      loaded as a word. */
  function Seen(front: seq<Byte>, data: seq<Byte>): (s: seq<Byte>)
    ensures |s| == |data|
  {
    var at := |data| - 4;
    if WordLast(|data|) then data[..at] + Rotated(front + data[..at], data[at..]) else data
  }

  /** The device is sent the bytes in memory if and only if the source is aligned,
      or no fragment of 4 is left over, or the bytes that an unaligned load rotates
      in happen to be the right ones. */
  lemma SeenExact(front: seq<Byte>, data: seq<Byte>)
    ensures Seen(front, data) == data <==> |front| % 4 == 0 || !WordLast(|data|) || LuckyLoad(front, data)
  {
    if WordLast(|data|) {
      var at := |data| - 4;
      var before, word := front + data[..at], data[at..];
      assert |before| % 4 == |front| % 4 by { LeftOver(|front|, |data|); }
      hide WordLast, Rotated;
      RotatedExact(before, word);
      assert data == data[..at] + word;
      SameTail(data[..at], Rotated(before, word), word);
    }
  }

  /** The bytes in front of the last word are those at its end, as many as the load
      is off. */
  predicate LuckyLoad(front: seq<Byte>, data: seq<Byte>) {
    |data| >= 4 &&
    var before, word, k := front + data[..|data| - 4], data[|data| - 4..], |front| % 4;
    before[|before| - k..] == word[4 - k..]
  }

  lemma RotatedExact(front: seq<Byte>, word: seq<Byte>)
    requires |word| == 4
    ensures var k := |front| % 4;
            Rotated(front, word) == word <==> front[|front| - k..] == word[4 - k..]
  {
    var k := |front| % 4;
    assert word == word[..4 - k] + word[4 - k..];
    SameTail(word[..4 - k], front[|front| - k..], word[4 - k..]);
  }

  lemma SameTail(a: seq<Byte>, b: seq<Byte>, c: seq<Byte>)
    ensures a + b == a + c <==> b == c
  {
    assert (a + b)[|a|..] == b && (a + c)[|a|..] == c;
  }

  /** Fragments keep the alignment of the whole. */
  lemma LeftOver(n: nat, len: nat)
    requires WordLast(len)
    ensures (n + len - 4) % 4 == n % 4
  {}

  lemma SeenFragment(front: seq<Byte>, data: seq<Byte>, i: nat)
    requires i < |data| && i % CHUNK == 0
    ensures var f := Frag(i, |data|);
            Seen(front, data)[i..i + f] ==
            if f == 4 then Rotated(front + data[..i], data[i..i + 4]) else data[i..i + f]
  {
    var f := Frag(i, |data|);
    FourLeft(i, |data|);
    hide Rotated, Frag, WordLast;
    if WordLast(|data|) {
      var at := |data| - 4;
      Joined(data[..at], Rotated(front + data[..at], data[at..]), i, f);
      if i == at {
        assert data[i..i + 4] == data[at..];
      } else {
        assert data[..at][i..i + f] == data[i..i + f];
      }
    }
  }

  lemma Joined(a: seq<Byte>, b: seq<Byte>, i: nat, f: nat)
    requires i + f <= |a| + |b|
    ensures i + f <= |a| ==> (a + b)[i..i + f] == a[i..i + f]
    ensures i == |a| && f == |b| ==> (a + b)[i..i + f] == b
  {}

  lemma FourLeft(i: nat, len: nat)
    requires i < len && i % CHUNK == 0
    ensures Frag(i, len) == 4 <==> WordLast(len) && i == len - 4
    ensures WordLast(len) && i != len - 4 ==> i + Frag(i, len) <= len - 4
  {}

  lemma LowBytes(u: U32)
    ensures var b := PutLe32(u);
            b[0] == u % 0x100 && b[1] == u / 0x100 % 0x100 && b[2] == u / 0x100 / 0x100 % 0x100 &&
            b[3] == u / 0x100 / 0x100 / 0x100
  {
    var lo, mid := u % 0x100, u / 0x100 % 0x100;
    var hi: int := u / 0x100 / 0x100;
    assert u == lo + 0x100 * mid + 0x1_0000 * hi;
    assert u % 0x1_0000 == lo + 0x100 * mid && u / 0x1_0000 == hi;
    HalfBytes(lo, mid);
    var p, q := PutLe16(u % 0x1_0000), PutLe16(u / 0x1_0000);
    assert (p + q)[2] == q[0] && (p + q)[3] == q[1];
  }

  lemma HalfBytes(lo: Byte, mid: Byte)
    ensures (lo + 0x100 * (mid as int)) % 0x100 == lo && (lo + 0x100 * (mid as int)) / 0x100 == mid
  {}

  /** wifi_card_write_mbox0_u32. */
  method WriteMbox32(val0: U32) returns (ws: seq<RegWrite>)
    ensures ws == ToMbox(PutLe32(val0))
  {
    LowBytes(val0);
    ghost var b := PutLe32(val0);
    hide PutLe32;
    var val: U32 := val0;
    ws := [];
    for i := 0 to 4
      invariant |ws| == i && forall k :: 0 <= k < i ==> ws[k] == RegWrite(MBOX, b[k])
      invariant val == if i == 0 then val0 else if i == 1 then val0 / 0x100
                       else if i == 2 then val0 / 0x100 / 0x100 else if i == 3 then val0 / 0x100 / 0x100 / 0x100
                       else val0 / 0x100 / 0x100 / 0x100 / 0x100
    {
      ws := ws + [RegWrite(MBOX, val % 0x100)];
      val := val / 0x100;
    }
  }

  lemma MboxSnoc(s: seq<Byte>, b: Byte)
    ensures ToMbox(s + [b]) == ToMbox(s) + [RegWrite(MBOX, b)]
  {}

  /** A run of byte writes to the mailbox, as the two copying loops do them. */
  method WriteBytes(s: seq<Byte>, ghost before: seq<Byte>, ws0: seq<RegWrite>) returns (ws: seq<RegWrite>)
    requires ws0 == ToMbox(before)
    ensures ws == ToMbox(before + s)
  {
    hide ToMbox;
    ws := ws0;
    assert before + s[..0] == before;
    for i := 0 to |s|
      invariant ws == ToMbox(before + s[..i])
    {
      MboxSnoc(before + s[..i], s[i]);
      assert before + s[..i] + [s[i]] == before + s[..i + 1];
      ws := ws + [RegWrite(MBOX, s[i])];
    }
    assert s[..|s|] == s;
  }

  /** wifi_card_bmi_cmd_write_memory. */
  method CmdWriteMemory(addr: U32, front: seq<Byte>, data: seq<Byte>) returns (ws: seq<RegWrite>)
    requires |data| < 0x8000_0000
    ensures ws == Command(addr, if |data| == 4 then Rotated(front, data) else data)
  {
    hide PutLe32, ToMbox, ToReg32, LeAt, Rotated;
    if |data| == 4 {
      return ToReg32(WINDOW_DATA, LeAt(Rotated(front, data), 0)) + ToReg32(WINDOW_WRITE_ADDR, addr);
    }
    var n: U32 := |data| + |data| % 4;
    var c := WriteMbox32(BMI_WRITE_MEMORY);
    var a := WriteMbox32(addr);
    var l := WriteMbox32(n);
    MboxConcat(PutLe32(BMI_WRITE_MEMORY), PutLe32(addr));
    MboxConcat(PutLe32(BMI_WRITE_MEMORY) + PutLe32(addr), PutLe32(n));
    ghost var h := CommandHeader(addr, n);
    ws := WriteBytes(data, h, c + a + l);
    ws := WriteBytes(Zeros(|data| % 4), h + data, ws);
  }

  /** wifi_card_bmi_write_memory. */
  method WriteMemory(addr: U32, front: seq<Byte>, data: seq<Byte>) returns (ws: seq<RegWrite>)
    requires |data| < 0x8000_0000
    ensures ws == Chunks(addr, Seen(front, data), 0)
  {
    hide Command, Rotated, Seen;
    ghost var sent := Seen(front, data);
    ws := [];
    var i := 0;
    while i < |data|
      invariant 0 <= i && i % CHUNK == 0 && ws + Chunks(addr, sent, i) == Chunks(addr, sent, 0)
    {
      var frag := if i + CHUNK > |data| then |data| - i else CHUNK;
      SeenFragment(front, data, i);
      var c := CmdWriteMemory((addr + i) % M, front + data[..i], data[i..i + frag]);
      assert (ws + c) + Chunks(addr, sent, i + CHUNK) == ws + Chunks(addr, sent, i);
      ws := ws + c;
      i := i + CHUNK;
    }
  }
}
