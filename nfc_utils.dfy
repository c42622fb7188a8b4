/** Byte and integer helpers shared by the NFC stack (src/nfc_utils.h):
    bounded minimum and maximum, low-bit masks, the 16-to-8 bit cast,
    big-endian decoding and in-place byte reversal. */
module NfcUtils {

  /** An octet as the C code manipulates it (uint8_t), with bitwise operators. */
  type byte = bv8

  /** The range of a C uint8_t used as a counter. */
  type uint8 = x: int | 0 <= x < 256

  /** A caller-owned output variable passed by address
      (uint8_t *devCnt, bool *colPending, ndefTypeId *typeId). */
  class Ref<T> {
    var val: T

    constructor (v: T)
      ensures val == v
    {
      val := v;
    }
  }

  /** 2 to the power n, as an independent reference for masks and slot counts. */
  function Pow2(n: nat): (r: nat)
    ensures r >= 1
  {
    if n == 0 then 1 else 2 * Pow2(n - 1)
  }

  /** An octet spans 2^8 values. */
  lemma Pow2Eight()
    ensures Pow2(8) == 0x100
  {
  }

  /** Powers of two grow with the exponent. */
  lemma {:induction false} Pow2Monotone(n: nat, m: nat)
    requires n <= m
    ensures Pow2(n) <= Pow2(m)
  {
    if n < m {
      Pow2Monotone(n, m - 1);
    }
  }

  /** From 2^8 on, a power of two is a whole number of octet ranges. */
  lemma {:induction false} Pow2MultipleOf256(n: nat)
    requires n >= 8
    ensures Pow2(n) == 0x100 * Pow2(n - 8)
    ensures Pow2(n) % 0x100 == 0
  {
    if n == 8 {
      Pow2Eight();
    } else {
      Pow2MultipleOf256(n - 1);
    }
  }

  /** MAX(a, b): one of the two operands, and no smaller than either. */
  function Max(a: int, b: int): (r: int)
    ensures r == a || r == b
    ensures a <= r && b <= r
  {
    if a > b then a else b
  }

  /** MIN(a, b): one of the two operands, and no larger than either. */
  function Min(a: int, b: int): (r: int)
    ensures r == a || r == b
    ensures r <= a && r <= b
  {
    if a < b then a else b
  }

  /** BITMASK_1 .. BITMASK_4: the mask of the n least significant bits. */
  function BitMask(n: nat): (r: byte)
    requires 1 <= n <= 4
    ensures r as int == Pow2(n) - 1
  {
    match n
    case 1 => 0x01
    case 2 => 0x03
    case 3 => 0x07
    case 4 => 0x0F
  }

  /** U16TOU8(a): keeps the low octet of a 16-bit value. */
  function U16ToU8(a: bv16): (r: bv16)
    ensures r == a % 0x100
  {
    a & 0x00FF
  }

  /** GETU16(a): the two octets a[0], a[1] read as a big-endian number. */
  function GetU16(a: seq<byte>): (r: bv16)
    requires |a| >= 2
    ensures r == (a[0] as bv16) * 0x100 + (a[1] as bv16)
    ensures r / 0x100 == a[0] as bv16 && r % 0x100 == a[1] as bv16
  {
    ((a[0] as bv16) << 8) | (a[1] as bv16)
  }

  /** GETU32(a): the four octets a[0..4] read as a big-endian number. */
  function GetU32(a: seq<byte>): (r: bv32)
    requires |a| >= 4
    ensures r == (((a[0] as bv32) * 0x100 + a[1] as bv32) * 0x100 + a[2] as bv32) * 0x100 + a[3] as bv32
    ensures r / 0x100_0000 == a[0] as bv32 && r % 0x100 == a[3] as bv32
  {
    ((a[0] as bv32) << 24) | ((a[1] as bv32) << 16) | ((a[2] as bv32) << 8) | (a[3] as bv32)
  }

  /** The octets of s in the opposite order, built from the back. */
  function Reversed(s: seq<byte>): (r: seq<byte>)
    ensures |r| == |s|
  {
    if |s| == 0 then [] else [s[|s| - 1]] + Reversed(s[..|s| - 1])
  }

  /** Position k of the reversal holds position |s| - 1 - k of the original. */
  lemma {:induction false} ReversedAt(s: seq<byte>, k: nat)
    requires k < |s|
    ensures Reversed(s)[k] == s[|s| - 1 - k]
  {
    if k > 0 {
      ReversedAt(s[..|s| - 1], k - 1);
    }
  }

  /** Reversing twice gives back the original octets. */
  lemma ReversedTwice(s: seq<byte>)
    ensures Reversed(Reversed(s)) == s
  {
    forall k | 0 <= k < |s|
      ensures Reversed(Reversed(s))[k] == s[k]
    {
      ReversedAt(Reversed(s), k);
      ReversedAt(s, |s| - 1 - k);
    }
  }

  /** A buffer of at most one octet is its own reversal. */
  lemma ReversedShort(s: seq<byte>)
    requires |s| <= 1
    ensures Reversed(s) == s
  {
  }

  /** REVERSE_BYTES(pData, n): two cursors converge from both ends of the
      first n octets, swapping as they go; octets from n on are left alone. */
  method ReverseBytes(data: array<byte>, n: nat)
    requires n <= data.Length
    modifies data
    ensures data[..n] == Reversed(old(data[..n]))
    ensures data[n..] == old(data[n..])
  {
    ghost var was := data[..];
    var lo: int := 0;
    var hi: int := n - 1;
    while lo < hi
      invariant 0 <= lo && lo + hi == n - 1 && lo <= hi + 1
      invariant forall k :: 0 <= k < lo ==> data[k] == was[n - 1 - k] && data[n - 1 - k] == was[k]
      invariant forall k :: lo <= k <= hi ==> data[k] == was[k]
      invariant forall k :: n <= k < data.Length ==> data[k] == was[k]
    {
      data[lo], data[hi] := data[hi], data[lo];
      lo := lo + 1;
      hi := hi - 1;
    }
    forall k | 0 <= k < n
      ensures data[..n][k] == Reversed(was[..n])[k]
    {
      ReversedAt(was[..n], k);
    }
  }
}
