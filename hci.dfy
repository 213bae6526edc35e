/**
 * Values shared by the whole model: bytes, the HCI op-code layout, Python's
 * integer left shift and Python's `bytearray.fromhex`.
 */
module Hci {

  /** One byte as Python's `bytes` and `bytearray` hold it: an int in 0..255. */
  type byte = b: int | 0 <= b < 256

  /** The six bytes of a device address, as `bytes(address)` yields them. */
  type AddressBytes = s: seq<byte> | |s| == 6 witness [0, 0, 0, 0, 0, 0]

  datatype Option<T> = None | Some(value: T)

  /** The vendor-specific command group (OGF) every vendor command here lives in. */
  const VendorOgf: int := 0x3F

  /**
   * The 16-bit HCI command op-code: a 6-bit OGF above a 10-bit OCF, that is
   * `(OGF << 10) | OCF` on Python ints (Bluetooth Core Specification, Vol 4,
   * Part E, section 5.4.1). The program computes it with bumble's
   * `hci_command_op_code`, which is not part of this model; that it uses this
   * formula is an assumption.
   */
  /** The OGF and OCF can be read back from the op-code when the OCF fits its 10 bits. */
  function OpCode(ogf: nat, ocf: nat): (op: nat)
    ensures ocf < 0x400 ==> op == ogf * 0x400 + ocf
    ensures ocf < 0x400 ==> op / 0x400 == ogf && op % 0x400 == ocf
  {
    assert Pow2(10) == 0x400;
    if ocf < 0x400 then
      BitOrShifted(ogf, ocf, 10);
      BitOr(Shl(ogf, 10) as nat, ocf)
    else
      BitOr(Shl(ogf, 10) as nat, ocf)
  }

  /** Python's `x | y` on non-negative ints: no smaller than either operand, no larger than their sum. */
  function BitOr(x: nat, y: nat): (r: nat)
    ensures x <= r && y <= r && r <= x + y
    decreases x + y
  {
    if x == 0 then y
    else if y == 0 then x
    else 2 * BitOr(x / 2, y / 2) + (if x % 2 == 1 || y % 2 == 1 then 1 else 0)
  }

  /** Or-ing a value into the zero low bits of a shifted one adds it. */
  lemma {:induction false} BitOrShifted(x: nat, c: nat, n: nat)
    requires c < Pow2(n)
    ensures BitOr(x * Pow2(n), c) == x * Pow2(n) + c
    decreases n
  {
    var xs := x * Pow2(n);
    if n == 0 || x == 0 || c == 0 {
      assert n == 0 ==> c == 0 && xs == x;
      assert x == 0 ==> xs == 0;
    } else {
      var half := x * Pow2(n - 1);
      assert xs == 2 * half;
      assert xs / 2 == half && xs % 2 == 0;
      assert c / 2 < Pow2(n - 1);
      BitOrShifted(x, c / 2, n - 1);
      assert BitOr(xs, c) == 2 * BitOr(half, c / 2) + c % 2;
    }
  }

  /** Python's `x << n` for a non-negative shift count: shifting by zero keeps `x`, each further place doubles it. */
  function Shl(x: int, n: nat): (r: int)
    ensures n == 0 ==> r == x
    ensures n > 0 ==> r == 2 * Shl(x, n - 1)
  {
    if n == 0 then x * Pow2(n)
    else
      var half := Pow2(n - 1);
      assert x * (2 * half) == 2 * (x * half);
      x * Pow2(n)
  }

  function Pow2(n: nat): (p: nat)
    ensures p >= 1
  {
    if n == 0 then 1 else 2 * Pow2(n - 1)
  }

  predicate IsHexDigit(c: char)
  {
    ('0' <= c <= '9') || ('a' <= c <= 'f') || ('A' <= c <= 'F')
  }

  /** Every character of `s` is a hexadecimal digit. */
  predicate IsHexString(s: string)
  {
    forall i :: 0 <= i < |s| ==> IsHexDigit(s[i])
  }

  lemma HexStringConcat(s: string, t: string)
    requires IsHexString(s) && IsHexString(t)
    ensures IsHexString(s + t)
  {
    forall i | 0 <= i < |s + t| ensures IsHexDigit((s + t)[i]) {
      if i < |s| {
        assert (s + t)[i] == s[i];
      } else {
        assert (s + t)[i] == t[i - |s|];
      }
    }
  }

  function HexValue(c: char): (v: int)
    requires IsHexDigit(c)
    ensures 0 <= v < 16
  {
    if '0' <= c <= '9' then c as int - '0' as int
    else if 'a' <= c <= 'f' then c as int - 'a' as int + 10
    else c as int - 'A' as int + 10
  }

  /**
   * Python's `bytearray.fromhex(s)` on a string without whitespace: two
   * hexadecimal digits per byte, anything else a ValueError (None).
   */
  function FromHex(s: string): (r: Option<seq<byte>>)
    ensures r.Some? <==> |s| % 2 == 0 && IsHexString(s)
    ensures r.Some? ==> 2 * |r.value| == |s|
    ensures r.Some? ==> forall k :: 0 <= k < |r.value| ==>
      r.value[k] == 16 * HexValue(s[2 * k]) + HexValue(s[2 * k + 1])
  {
    if |s| % 2 == 0 && IsHexString(s) then
      Some(seq(|s| / 2, k requires 0 <= k < |s| / 2 => 16 * HexValue(s[2 * k]) + HexValue(s[2 * k + 1])))
    else
      None
  }
}
