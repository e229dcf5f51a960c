/**
 * Fixed-width unsigned integers, C strings and the byte orders the
 * firmware structures use.
 */
module Bytes {
  type u8 = x: int | 0 <= x < 0x100
  type u16 = x: int | 0 <= x < 0x1_0000
  type u32 = x: int | 0 <= x < 0x1_0000_0000
  type u64 = x: int | 0 <= x < 0x1_0000_0000_0000_0000

  const U32_MODULUS: int := 0x1_0000_0000

  /** The value C stores in a `grub_uint32_t` when it is assigned `x`. */
  function Wrap32(x: int): (r: u32)
    ensures 0 <= x < U32_MODULUS ==> r == x
    ensures U32_MODULUS <= x < 2 * U32_MODULUS ==> r == x - U32_MODULUS
    ensures -U32_MODULUS <= x < 0 ==> r == x + U32_MODULUS
    ensures (x - r) % U32_MODULUS == 0
  {
    x % U32_MODULUS
  }

  /** `count` zero bytes: what zero-allocated memory holds. */
  function Zeros(count: nat): (z: seq<u8>)
    ensures |z| == count
    ensures forall i :: 0 <= i < count ==> z[i] == 0
  {
    seq(count, _ => 0 as u8)
  }

  /** Length of the C string stored at the start of `s`: the index of its
      first NUL byte, or |s| when the terminator lies beyond `s`. */
  function StrLen(s: seq<u8>): (n: nat)
    ensures n <= |s|
    ensures n < |s| ==> s[n] == 0
    ensures forall i :: 0 <= i < n ==> s[i] != 0
  {
    if s == [] || s[0] == 0 then 0 else 1 + StrLen(s[1..])
  }

  /** The characters of the C string stored at the start of `s`. */
  function CStr(s: seq<u8>): (c: seq<u8>)
    ensures |c| == StrLen(s)
    ensures c <= s
  {
    s[..StrLen(s)]
  }

  /** The `strlen(s) + 1` bytes of a C string whose characters are those of
      `s` up to its first NUL: the characters and their terminator. */
  function Terminated(s: seq<u8>): (t: seq<u8>)
    ensures |t| == StrLen(s) + 1
    ensures t[..StrLen(s)] == CStr(s) && t[StrLen(s)] == 0
  {
    CStr(s) + [0]
  }

  /** `s` with `piece` written over it from index `off` on: the effect of a
      store or a memcpy on a buffer. */
  function Splice(s: seq<u8>, off: nat, piece: seq<u8>): (r: seq<u8>)
    requires off + |piece| <= |s|
    ensures |r| == |s|
    ensures forall i :: 0 <= i < |s| ==> r[i] == if off <= i < off + |piece| then piece[i - off] else s[i]
  {
    s[..off] + piece + s[off + |piece|..]
  }

  // ---- little-endian (UEFI structures, the x86 host) ----

  function LE16(v: u16): (b: seq<u8>)
    ensures |b| == 2
  {
    [v % 0x100, v / 0x100]
  }

  function FromLE16(b: seq<u8>): (v: u16)
    requires |b| == 2
  {
    b[0] + 0x100 * (b[1] as int)
  }

  function LE32(v: u32): (b: seq<u8>)
    ensures |b| == 4
  {
    [v % 0x100, (v / 0x100) % 0x100, (v / 0x1_0000) % 0x100, v / 0x100_0000]
  }

  function FromLE32(b: seq<u8>): (v: u32)
    requires |b| == 4
  {
    b[0] + 0x100 * (b[1] as int) + 0x1_0000 * (b[2] as int) + 0x100_0000 * (b[3] as int)
  }

  lemma {:induction false} LE16RoundTrip(v: u16)
    ensures FromLE16(LE16(v)) == v
  {
    var b := LE16(v);
    assert v == (v / 0x100) * 0x100 + v % 0x100;
  }

  lemma {:induction false} LE32RoundTrip(v: u32)
    ensures FromLE32(LE32(v)) == v
  {
    var q1 := v / 0x100;
    var q2 := q1 / 0x100;
    var q3 := q2 / 0x100;
    assert v == q1 * 0x100 + v % 0x100;
    assert q1 == q2 * 0x100 + q1 % 0x100;
    assert q2 == q3 * 0x100 + q2 % 0x100;
    assert q2 == v / 0x1_0000;
    assert q3 == v / 0x100_0000;
  }

  /** A non-zero multiple of a positive `d` is at least `d` away from 0. */
  lemma MultipleBound(d: int, k: int)
    requires d > 0
    ensures k >= 1 ==> d * k >= d
    ensures k <= -1 ==> d * k <= -d
  {
    if k >= 1 {
      assert d * k == d + d * (k - 1);
    } else if k <= -1 {
      assert d * k == -d + d * (k + 1);
    }
  }

  /** Euclidean division is determined by any quotient and in-range remainder. */
  lemma DivModUnique(v: int, d: int, q: int, r: int)
    requires d > 0 && 0 <= r < d && v == d * q + r
    ensures v / d == q && v % d == r
  {
    var k := q - v / d;
    assert d * q == d * (v / d) + d * k;
    MultipleBound(d, k);
  }

  lemma {:induction false} FromLE32RoundTrip(b: seq<u8>)
    requires |b| == 4
    ensures LE32(FromLE32(b)) == b
  {
    var v := FromLE32(b);
    var t1 := b[1] + 0x100 * (b[2] as int) + 0x1_0000 * (b[3] as int);
    var t2 := b[2] + 0x100 * (b[3] as int);
    DivModUnique(v, 0x100, t1, b[0]);
    DivModUnique(t1, 0x100, t2, b[1]);
    DivModUnique(v, 0x1_0000, t2, b[0] + 0x100 * (b[1] as int));
    DivModUnique(t2, 0x100, b[3], b[2]);
    DivModUnique(v, 0x100_0000, b[3], b[0] + 0x100 * (b[1] as int) + 0x1_0000 * (b[2] as int));
  }

  /** The signature check compares the memory of a 32-bit word with four
      bytes: on a little-endian host that is one comparison of the word. */
  lemma LE32Injective(v: u32, w: u32)
    ensures LE32(v) == LE32(w) <==> v == w
  {
    if LE32(v) == LE32(w) {
      LE32RoundTrip(v);
      LE32RoundTrip(w);
    }
  }

  // ---- big-endian (QEMU's fw_cfg directory) ----

  function BE16(v: u16): (b: seq<u8>)
    ensures |b| == 2
  {
    [v / 0x100, v % 0x100]
  }

  /** `grub_be_to_cpu16` applied to a field filled from two bytes in order. */
  function FromBE16(b: seq<u8>): (v: u16)
    requires |b| == 2
  {
    0x100 * (b[0] as int) + b[1]
  }

  function BE32(v: u32): (b: seq<u8>)
    ensures |b| == 4
  {
    [v / 0x100_0000, (v / 0x1_0000) % 0x100, (v / 0x100) % 0x100, v % 0x100]
  }

  /** `grub_be_to_cpu32` applied to a field filled from four bytes in order. */
  function FromBE32(b: seq<u8>): (v: u32)
    requires |b| == 4
  {
    0x100_0000 * (b[0] as int) + 0x1_0000 * (b[1] as int) + 0x100 * (b[2] as int) + b[3]
  }

  /** Big-endian is little-endian read backwards. */
  lemma BE32IsReversedLE32(v: u32)
    ensures BE32(v) == [LE32(v)[3], LE32(v)[2], LE32(v)[1], LE32(v)[0]]
  {
  }

  lemma {:induction false} BE16RoundTrip(v: u16)
    ensures FromBE16(BE16(v)) == v
  {
    LE16RoundTrip(v);
  }

  lemma {:induction false} FromBE16RoundTrip(b: seq<u8>)
    requires |b| == 2
    ensures BE16(FromBE16(b)) == b
  {
    var v := FromBE16(b);
    assert v % 0x100 == b[1];
    assert v / 0x100 == b[0];
  }

  lemma {:induction false} BE32RoundTrip(v: u32)
    ensures FromBE32(BE32(v)) == v
  {
    LE32RoundTrip(v);
  }

  lemma {:induction false} FromBE32RoundTrip(b: seq<u8>)
    requires |b| == 4
    ensures BE32(FromBE32(b)) == b
  {
    var reversed := [b[3], b[2], b[1], b[0]];
    assert FromBE32(b) == FromLE32(reversed);
    FromLE32RoundTrip(reversed);
    BE32IsReversedLE32(FromBE32(b));
  }
}
