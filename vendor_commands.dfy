/**
 * The vendor commands of bdaddr.py: the command classes and their op-codes
 * (bdaddr.py:176-238), the commands each vendor path builds (bdaddr.py:82-173)
 * and the two raw CSR packets (bdaddr.py:94-119).
 */
module VendorCommands {
  import opened Hci

  /** The command classes the program declares, plus bumble's `HCI_Reset_Command`. */
  datatype CommandKind =
    | EricssonWriteBDAddr
    | EricssonStoreInFlash
    | CsrWriteBDAddr
    | TiWriteBDAddr
    | BcmWriteBDAddr
    | IntelWriteBDAddr
    | CysWriteBDAddr
    | ZeevoWriteBDAddr
    | HciReset

  /** The OGF and OCF each class passes to `hci_command_op_code`. */
  function OgfOf(k: CommandKind): nat
  {
    if k == HciReset then 0x03 else VendorOgf
  }

  function OcfOf(k: CommandKind): (ocf: nat)
    ensures ocf < 0x400
  {
    match k
    case EricssonWriteBDAddr => 0x000D
    case EricssonStoreInFlash => 0x0022
    case CsrWriteBDAddr => 0x0000
    case TiWriteBDAddr => 0x0006
    case BcmWriteBDAddr => 0x0001
    case IntelWriteBDAddr => 0x0031
    case CysWriteBDAddr => 0x0001
    case ZeevoWriteBDAddr => 0x0001
    // HCI_Reset (Bluetooth Core Specification, Vol 4, Part E, section 7.3.2);
    // bumble's class is not part of this model, so this value is an assumption.
    case HciReset => 0x0003
  }

  /**
   * The `op_code` a command class carries, as the 16-bit field layout:
   * the OGF in the top six bits, the OCF in the low ten.
   */
  function OpCodeOf(k: CommandKind): (op: nat)
    ensures op / 0x400 == OgfOf(k) && op % 0x400 == OcfOf(k)
    ensures k != HciReset ==> op / 0x400 == VendorOgf
  {
    OgfOf(k) * 0x400 + OcfOf(k)
  }

  /** That layout is what `hci_command_op_code(ogf, ocf)`, `(ogf << 10) | ocf`, computes. */
  lemma OpCodeOfIsHciOpCode(k: CommandKind)
    ensures OpCodeOf(k) == OpCode(OgfOf(k), OcfOf(k))
  {
  }

  /** The op-code table as 16-bit numbers. */
  lemma OpCodeTable()
    ensures OpCodeOf(EricssonWriteBDAddr) == 0xFC0D
    ensures OpCodeOf(EricssonStoreInFlash) == 0xFC22
    ensures OpCodeOf(CsrWriteBDAddr) == 0xFC00
    ensures OpCodeOf(TiWriteBDAddr) == 0xFC06
    ensures OpCodeOf(IntelWriteBDAddr) == 0xFC31
    ensures OpCodeOf(BcmWriteBDAddr) == OpCodeOf(CysWriteBDAddr) == OpCodeOf(ZeevoWriteBDAddr) == 0xFC01
    ensures OpCodeOf(HciReset) == 0x0C03
  {
  }

  /** Op-codes tell the classes apart, except BCM, CYS and Zeevo which share 0x3F/0x0001. */
  lemma OpCodeCollisions(k1: CommandKind, k2: CommandKind)
    ensures OpCodeOf(k1) == OpCodeOf(k2) <==>
      k1 == k2 || (OcfOf(k1) == OcfOf(k2) == 1 && k1 != HciReset && k2 != HciReset)
  {
    OpCodeTable();
  }

  /** The parameters of each command shape. */
  datatype Parameters =
    | AddressParameter(address: seq<byte>)                           // fields [("address", ...)]
    | StoreInFlashParameters(userId: byte, length: byte, data: seq<byte>)  // user_id, length, data
    | PayloadParameter(payload: seq<byte>)                           // fields [("payload", "*")]
    | NoParameters                                                   // HCI_Reset_Command()

  datatype Command = Command(kind: CommandKind, parameters: Parameters)

  /** How a command leaves the host: `send_command` (awaited) or `send_hci_packet` (raw). */
  datatype Channel = ViaSendCommand | ViaSendHciPacket

  datatype Packet = Packet(command: Command, channel: Channel)

  /** `_X_Write_BDAddr_Command(address=address)` for the six vendors with an address field. */
  function AddressCommand(k: CommandKind, a: AddressBytes): Command
  {
    Command(k, AddressParameter(a))
  }

  /** `_Ericsson_Store_In_Flash_Command(user_id=0xFE, length=6, data=bytes(address))`. */
  function StoreInFlashCommand(a: AddressBytes): (c: Command)
    ensures c.kind == EricssonStoreInFlash && OpCodeOf(c.kind) == 0xFC22
    ensures c.parameters.StoreInFlashParameters?
    ensures c.parameters.userId == 0xFE && c.parameters.length == |a| == |c.parameters.data|
    ensures c.parameters.data == a
  {
    OpCodeTable();
    Command(EricssonStoreInFlash, StoreInFlashParameters(0xFE, 6, a))
  }

  // ----- CSR raw packets -----

  /** The channel marker byte that starts every CSR packet. */
  const CsrChannel: byte := 0xC2

  /** The template of `_csr_bdaddr` (csr_write_pskey_complex), written in 12-digit pieces. */
  const CsrWriteTemplateHex: string := "02000c001147" + "037000000100" + "040000000000" + "000000000000"

  /** The template of `_csr_reset`, written in 12-digit pieces. */
  const CsrResetTemplateHex: string := "020009000000" + "014000000000" + "000000000000"

  lemma CsrWriteTemplateHexDigits()
    ensures |CsrWriteTemplateHex| == 48 && IsHexString(CsrWriteTemplateHex)
    ensures CsrWriteTemplateHex[28] == '0' && CsrWriteTemplateHex[29] == '0'
  {
    var p0, p1, p2, p3 := "02000c001147", "037000000100", "040000000000", "000000000000";
    assert IsHexString(p0) && IsHexString(p1) && IsHexString(p2) && IsHexString(p3);
    HexStringConcat(p0, p1);
    HexStringConcat(p0 + p1, p2);
    HexStringConcat(p0 + p1 + p2, p3);
  }

  lemma CsrResetTemplateHexDigits()
    ensures |CsrResetTemplateHex| == 36 && IsHexString(CsrResetTemplateHex)
    ensures CsrResetTemplateHex[12] == '0' && CsrResetTemplateHex[13] == '1'
  {
    var p0, p1, p2 := "020009000000", "014000000000", "000000000000";
    assert IsHexString(p0) && IsHexString(p1) && IsHexString(p2);
    HexStringConcat(p0, p1);
    HexStringConcat(p0 + p1, p2);
  }

  /**
   * `bytearray.fromhex` of the write template: 24 bytes (the 48 hex digits
   * counted), with 0x00 in the transient flag byte 14.
   */
  function CsrWriteTemplate(): (t: seq<byte>)
    ensures FromHex(CsrWriteTemplateHex) == Some(t)
    ensures |t| == 24 && t[14] == 0x00
  {
    CsrWriteTemplateHexDigits();
    FromHex(CsrWriteTemplateHex).value
  }

  /**
   * `bytearray.fromhex` of the reset template: 18 bytes (36 hex digits), with
   * 0x01 in the transient flag byte 6.
   */
  function CsrResetTemplate(): (t: seq<byte>)
    ensures FromHex(CsrResetTemplateHex) == Some(t)
    ensures |t| == 18 && t[6] == 0x01
  {
    CsrResetTemplateHexDigits();
    FromHex(CsrResetTemplateHex).value
  }

  /**
   * The packet `_csr_bdaddr` sends: the channel marker, then the write
   * template with byte 14 set to 0x08 for a transient write and the eight
   * bytes 16..23 replaced by the address in the vendor's order.
   */
  function CsrWritePacket(a: AddressBytes, transient: bool): (p: seq<byte>)
    ensures |p| == 25 && p[0] == CsrChannel
    ensures p[15] == (if transient then 0x08 else 0x00)
  {
    var t := CsrWriteTemplate();
    [CsrChannel] + t[..14] + [if transient then 0x08 else t[14], t[15]] +
    [a[2], 0x00, a[0], a[1], a[3], 0x00, a[4], a[5]]
  }

  /** The packet `_csr_reset` sends: the marker, then the reset template with byte 6 set to 0x02 when transient. */
  function CsrResetPacket(transient: bool): (p: seq<byte>)
    ensures |p| == 19 && p[0] == CsrChannel
    ensures p[7] == (if transient then 0x02 else 0x01)
  {
    var t := CsrResetTemplate();
    [CsrChannel] + t[..6] + [if transient then 0x02 else t[6]] + t[7..]
  }

  /** Where the address bytes sit in a CSR write packet (packet offset = template offset + 1). */
  function CsrPacketAddress(p: seq<byte>): (a: seq<byte>)
    requires |p| == 25
    ensures |a| == 6
  {
    [p[19], p[20], p[17], p[21], p[23], p[24]]
  }

  /** Byte by byte: what of the template survives and where the address goes. */
  lemma CsrWritePacketLayout(a: AddressBytes, transient: bool)
    ensures var p := CsrWritePacket(a, transient);
      && |p| == 25 && p[0] == 0xC2
      && (forall i :: 0 <= i < 24 && i != 14 && !(16 <= i <= 23) ==> p[1 + i] == CsrWriteTemplate()[i])
      && p[1 + 14] == (if transient then 0x08 else CsrWriteTemplate()[14])
      && p[17..25] == [a[2], 0x00, a[0], a[1], a[3], 0x00, a[4], a[5]]
  {
    var p := CsrWritePacket(a, transient);
    assert |p| == 25;
    forall i | 0 <= i < 14 ensures p[1 + i] == CsrWriteTemplate()[i] {
      assert p[1 + i] == CsrWriteTemplate()[..14][i];
    }
  }

  /** The address and the transient flag can be read back from the write packet. */
  lemma {:induction false} CsrWritePacketRoundTrip(a: AddressBytes, transient: bool)
    ensures |CsrWritePacket(a, transient)| == 25
    ensures CsrPacketAddress(CsrWritePacket(a, transient)) == a
    ensures CsrWritePacket(a, transient)[15] == 0x08 <==> transient
  {
    CsrWritePacketLayout(a, transient);
  }

  /** Different addresses or flags never give the same write packet. */
  lemma CsrWritePacketInjective(a1: AddressBytes, t1: bool, a2: AddressBytes, t2: bool)
    ensures CsrWritePacket(a1, t1) == CsrWritePacket(a2, t2) <==> a1 == a2 && t1 == t2
  {
    CsrWritePacketRoundTrip(a1, t1);
    CsrWritePacketRoundTrip(a2, t2);
  }

  lemma CsrResetPacketLayout(transient: bool)
    ensures var p := CsrResetPacket(transient);
      && |p| == 19 && p[0] == 0xC2
      && (forall i :: 0 <= i < 18 && i != 6 ==> p[1 + i] == CsrResetTemplate()[i])
      && p[1 + 6] == (if transient then 0x02 else 0x01)
      && (p[7] == 0x02 <==> transient)
  {
    var p := CsrResetPacket(transient);
    forall i | 0 <= i < 18 && i != 6 ensures p[1 + i] == CsrResetTemplate()[i] {
      if i < 6 {
        assert p[1 + i] == CsrResetTemplate()[..6][i];
      } else {
        assert p[1 + i] == CsrResetTemplate()[7..][i - 7];
      }
    }
  }

  /** A 24-byte payload with the write template's layout gives the write packet. */
  lemma CsrWritePacketOfPayload(a: AddressBytes, transient: bool, s: seq<byte>)
    requires |s| == 24
    requires forall i :: 0 <= i < 14 ==> s[i] == CsrWriteTemplate()[i]
    requires s[14] == (if transient then 0x08 else CsrWriteTemplate()[14]) && s[15] == CsrWriteTemplate()[15]
    requires s[16] == a[2] && s[17] == 0x00 && s[18] == a[0] && s[19] == a[1]
    requires s[20] == a[3] && s[21] == 0x00 && s[22] == a[4] && s[23] == a[5]
    ensures [CsrChannel] + s == CsrWritePacket(a, transient)
  {
    assert s == s[..14] + [s[14], s[15]] + s[16..];
    assert s[..14] == CsrWriteTemplate()[..14];
    assert s[16..] == [a[2], 0x00, a[0], a[1], a[3], 0x00, a[4], a[5]];
  }

  /**
   * The eight writes of bdaddr.py:99-107: the address bytes go to offsets
   * 16..23 of the payload in the vendor's order, with zeros at 17 and 21.
   */
  method PatchAddress(payload: array<byte>, a: AddressBytes)
    requires payload.Length == 24
    modifies payload
    ensures forall i :: 0 <= i < 16 ==> payload[i] == old(payload[i])
    ensures payload[16] == a[2] && payload[17] == 0x00 && payload[18] == a[0] && payload[19] == a[1]
    ensures payload[20] == a[3] && payload[21] == 0x00 && payload[22] == a[4] && payload[23] == a[5]
  {
    payload[16] := a[2];
    payload[17] := 0x00;
    payload[18] := a[0];
    payload[19] := a[1];
    payload[20] := a[3];
    payload[21] := 0x00;
    payload[22] := a[4];
    payload[23] := a[5];
  }

  /**
   * `_csr_bdaddr`'s payload construction (bdaddr.py:96-108): decode the
   * template into a bytearray, patch it in place, prefix the marker.
   */
  method BuildCsrWritePacket(a: AddressBytes, transient: bool) returns (packet: seq<byte>)
    ensures packet == CsrWritePacket(a, transient)
    ensures |packet| == 25 && CsrPacketAddress(packet) == a
  {
    var decoded := CsrWriteTemplate();
    var payload := new byte[|decoded|](i requires 0 <= i < |decoded| => decoded[i]);
    if transient {
      payload[14] := 0x08;
    }
    PatchAddress(payload, a);
    CsrWritePacketOfPayload(a, transient, payload[..]);
    packet := [CsrChannel] + payload[..];
    CsrWritePacketRoundTrip(a, transient);
  }

  /** A payload equal to the reset template but for byte 6 gives the reset packet. */
  lemma CsrResetPacketOfPayload(transient: bool, s: seq<byte>)
    requires |s| == 18
    requires forall i :: 0 <= i < 18 && i != 6 ==> s[i] == CsrResetTemplate()[i]
    requires s[6] == (if transient then 0x02 else CsrResetTemplate()[6])
    ensures [CsrChannel] + s == CsrResetPacket(transient)
  {
    assert s == s[..6] + [s[6]] + s[7..];
    assert s[..6] == CsrResetTemplate()[..6];
    assert s[7..] == CsrResetTemplate()[7..];
  }

  /** `_csr_reset`'s payload construction (bdaddr.py:114-117). */
  method BuildCsrResetPacket(transient: bool) returns (packet: seq<byte>)
    ensures packet == CsrResetPacket(transient)
    ensures |packet| == 19 && packet[0] == CsrChannel
  {
    var decoded := CsrResetTemplate();
    var payload := new byte[|decoded|](i requires 0 <= i < |decoded| => decoded[i]);
    if transient {
      payload[6] := 0x02;
    }
    CsrResetPacketOfPayload(transient, payload[..]);
    packet := [CsrChannel] + payload[..];
  }
}
