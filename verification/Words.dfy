/** Machine words of the driver: bytes, 16- and 32-bit unsigned values, the
    little-endian accessors of common/source/utils.h and the expression macros
    of include/lwip/inet_chksum.h. */
module Words {
  datatype Option<T> = None | Some(value: T)

  type Byte = b: int | 0 <= b < 0x100
  type U16 = w: int | 0 <= w < 0x1_0000
  type U32 = u: int | 0 <= u < 0x1_0000_0000

  /** Unsigned 32-bit addition, with its wrap-around. */
  function Add32(a: U32, b: int): (r: U32) {
    (a + b) % 0x1_0000_0000
  }

  function Complement16(w: U16): (r: U16) {
    0xFFFF - w
  }

  /** FOLD_U32T: add the two halves of a 32-bit word. */
  function Fold(u: U32): (r: U32) {
    u / 0x1_0000 + u % 0x1_0000
  }

  /** SWAP_BYTES_IN_WORD, and lwip_htons on this little-endian machine. Bits
      above the low 16 are dropped. */
  function SwapWord(w: U32): (r: U16) {
    (w % 0x100) * 0x100 + (w / 0x100) % 0x100
  }

  function Le16(b0: Byte, b1: Byte): (r: U16) {
    b0 + 0x100 * b1
  }

  function Le32(b0: Byte, b1: Byte, b2: Byte, b3: Byte): (r: U32) {
    Le16(b0, b1) + 0x1_0000 * (Le16(b2, b3) as int)
  }

  function PutLe16(w: U16): (s: seq<Byte>)
    ensures |s| == 2 && Le16(s[0], s[1]) == w
  {
    [w % 0x100, w / 0x100]
  }

  function PutLe32(u: U32): (s: seq<Byte>)
    ensures |s| == 4
  {
    PutLe16(u % 0x1_0000) + PutLe16(u / 0x1_0000)
  }

  /** The word at offset `k`. */
  function LeAt(s: seq<Byte>, k: nat): (r: U32)
    requires k + 4 <= |s|
  {
    Le32(s[k], s[k + 1], s[k + 2], s[k + 3])
  }

  lemma PutThenGet(u: U32)
    ensures LeAt(PutLe32(u), 0) == u
  {
    var lo, hi := PutLe16(u % 0x1_0000), PutLe16(u / 0x1_0000);
    hide PutLe16;
    assert (lo + hi)[2] == hi[0] && (lo + hi)[3] == hi[1];
  }

  lemma GetThenPut(s: seq<Byte>)
    requires |s| == 4
    ensures PutLe32(LeAt(s, 0)) == s
  {
    var u := LeAt(s, 0);
    assert u % 0x1_0000 == Le16(s[0], s[1]) && u / 0x1_0000 == Le16(s[2], s[3]);
  }

  function Min(a: int, b: int): (r: int) {
    if a <= b then a else b
  }

  /** round_up(x, 0x80): the next multiple of the SDIO block size. */
  function RoundUpBlock(x: nat): (r: nat)
    ensures r % 0x80 == 0 && x <= r < x + 0x80
  {
    (x + 0x7F) / 0x80 * 0x80
  }
}
