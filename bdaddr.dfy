/**
 * `bdaddr(device, address, reset)` (bdaddr.py:11-61) and the vendor paths it
 * dispatches to (bdaddr.py:82-173), over a host that records what it sends.
 *
 * The pure part states what one call does to the host's state (`BdaddrSpec`);
 * the class `Host` holds that state in fields and its methods, which follow
 * the program statement by statement, are proved to do exactly that.
 */
module Bdaddr {
  import opened Hci
  import opened VendorCommands
  import opened CsrEvents

  /** bumble's four address types; only the public device address can be programmed. */
  datatype AddressType = PublicDeviceAddress | RandomDeviceAddress | PublicIdentityAddress | RandomIdentityAddress

  /** An `Address`: its six bytes as `bytes(address)` yields them, and its type. */
  datatype Address = Address(bytes: AddressBytes, addressType: AddressType)

  /** The part of `device.host.local_version` the program reads. */
  datatype LocalVersion = LocalVersion(companyIdentifier: int)

  /** The four `BDAddrException` messages (bdaddr.py:13, 16, 39/61, 133). */
  datatype BdaddrError =
    | NotPublicDeviceAddress     // "address should be PUBLIC_DEVICE_ADDRESS"
    | NoLocalVersion             // "No available local_version"
    | UnsupportedManufacturer    // "Unsupported manufacturer"
    | CsrWriteFailed             // "Write BDAddr (CSR) failed"

  /**
   * How a call ends: it returns, it raises, or it is still suspended in
   * `await future` when the controller's events run out.
   */
  datatype Outcome = Completed | Raised(error: BdaddrError) | Suspended

  /**
   * The host as the program sees it: `local_version`, the `on_hci_event`
   * slot, the future of the CSR exchange, the packets sent, the events the
   * application's handler received, and the events the controller has yet
   * to deliver.
   */
  datatype HostState = HostState(
    localVersion: Option<LocalVersion>,
    handler: Handler,
    future: FutureState,
    sent: seq<Packet>,
    delivered: seq<Delivery>,
    incoming: seq<Event>)

  /** A result and the state after it. */
  datatype Step = Step(outcome: Outcome, state: HostState)

  /** The interceptor is in the slot only while its future is pending. */
  predicate SlotInvariant(s: HostState)
  {
    s.handler.CsrInterceptor? ==> s.future == Pending
  }

  // ----- dispatch -----

  /** The first `match company_identifier` (bdaddr.py:19-39). */
  datatype WriteRoute = SendWrite(kind: CommandKind) | UnsupportedWrite

  /** A vendor path exactly for the nine supported identifiers, and never `HCI_Reset`. */
  function WriteDispatch(companyIdentifier: int): (r: WriteRoute)
    ensures r.SendWrite? <==> companyIdentifier in SupportedIdentifiers
    ensures r.SendWrite? ==> r.kind != HciReset
  {
    match companyIdentifier
    case 0 => SendWrite(EricssonWriteBDAddr)
    case 2 => SendWrite(IntelWriteBDAddr)
    case 10 => SendWrite(CsrWriteBDAddr)
    case 13 => SendWrite(TiWriteBDAddr)
    case 15 => SendWrite(BcmWriteBDAddr)
    case 18 => SendWrite(ZeevoWriteBDAddr)
    case 48 => SendWrite(EricssonStoreInFlash)
    case 57 => SendWrite(EricssonWriteBDAddr)
    case 305 => SendWrite(CysWriteBDAddr)
    case _ => UnsupportedWrite
  }

  /** The second `match company_identifier` (bdaddr.py:41-61). */
  datatype ResetRoute = NoReset | SendHciReset | CsrResetRoute | UnsupportedReset

  /** `HCI_Reset` for 15, 48 and 57, the CSR reset for 10, `case _` outside the table. */
  function ResetDispatch(companyIdentifier: int): (r: ResetRoute)
    ensures r == UnsupportedReset <==> companyIdentifier !in SupportedIdentifiers
    ensures r == SendHciReset <==> companyIdentifier in {15, 48, 57}
    ensures r == CsrResetRoute <==> companyIdentifier == 10
  {
    match companyIdentifier
    case 0 => NoReset
    case 2 => NoReset
    case 10 => CsrResetRoute
    case 13 => NoReset
    case 15 => SendHciReset
    case 18 => NoReset
    case 48 => SendHciReset
    case 57 => SendHciReset
    case 305 => NoReset
    case _ => UnsupportedReset
  }

  /** The company identifiers the program supports. */
  const SupportedIdentifiers: set<int> := {0, 2, 10, 13, 15, 18, 48, 57, 305}

  /**
   * The reset dispatch falls through to `case _` exactly for the
   * identifiers the write dispatch already rejected, so once a write has
   * been sent its `raise` (bdaddr.py:60-61) cannot be reached.
   */
  lemma ResetFallbackUnreachable(cid: int)
    ensures ResetDispatch(cid) == UnsupportedReset <==> WriteDispatch(cid) == UnsupportedWrite
  {
  }

  /** The vendor each supported identifier selects, and its write op-code. */
  lemma WriteDispatchTable()
    ensures WriteDispatch(0) == WriteDispatch(57) == SendWrite(EricssonWriteBDAddr)
    ensures WriteDispatch(2) == SendWrite(IntelWriteBDAddr)
    ensures WriteDispatch(10) == SendWrite(CsrWriteBDAddr)
    ensures WriteDispatch(13) == SendWrite(TiWriteBDAddr)
    ensures WriteDispatch(15) == SendWrite(BcmWriteBDAddr)
    ensures WriteDispatch(18) == SendWrite(ZeevoWriteBDAddr)
    ensures WriteDispatch(48) == SendWrite(EricssonStoreInFlash)
    ensures WriteDispatch(305) == SendWrite(CysWriteBDAddr)
    ensures OpCodeOf(WriteDispatch(0).kind) == 0xFC0D && OpCodeOf(WriteDispatch(2).kind) == 0xFC31
    ensures OpCodeOf(WriteDispatch(13).kind) == 0xFC06 && OpCodeOf(WriteDispatch(48).kind) == 0xFC22
    ensures OpCodeOf(WriteDispatch(15).kind) == OpCodeOf(WriteDispatch(18).kind) ==
      OpCodeOf(WriteDispatch(305).kind) == 0xFC01
  {
    OpCodeTable();
  }

  // ----- the packets -----

  /** The command each write path sends and how it sends it (bdaddr.py:82-173). */
  function WritePacket(k: CommandKind, a: AddressBytes): (p: Packet)
    ensures p.command.kind == k
    ensures p.channel == ViaSendHciPacket <==> k == CsrWriteBDAddr
  {
    if k == CsrWriteBDAddr then CsrWritePacketOf(a, false)
    else if k == EricssonStoreInFlash then Packet(StoreInFlashCommand(a), ViaSendCommand)
    else Packet(AddressCommand(k, a), ViaSendCommand)
  }

  /** `_CSR_Write_BDAddr_Command(payload=...)` with the write packet, sent raw. */
  function CsrWritePacketOf(a: AddressBytes, transient: bool): Packet
  {
    Packet(Command(CsrWriteBDAddr, PayloadParameter(CsrWritePacket(a, transient))), ViaSendHciPacket)
  }

  /** `_CSR_Write_BDAddr_Command(payload=...)` with the reset packet, sent raw. */
  function CsrResetPacketOf(transient: bool): Packet
  {
    Packet(Command(CsrWriteBDAddr, PayloadParameter(CsrResetPacket(transient))), ViaSendHciPacket)
  }

  /** `HCI_Reset_Command()` through `send_command`. */
  const HciResetPacket: Packet := Packet(Command(HciReset, NoParameters), ViaSendCommand)

  /**
   * What the write packet carries: the six standard vendors send their
   * address command with the address bytes unchanged, ST the store-in-flash
   * command, CSR the raw write packet with the address scattered into it.
   */
  lemma WritePacketContents(k: CommandKind, a: AddressBytes)
    requires k != HciReset
    ensures var p := WritePacket(k, a);
      && (k == CsrWriteBDAddr ==> (p.command.parameters.PayloadParameter? &&
            |p.command.parameters.payload| == 25 && CsrPacketAddress(p.command.parameters.payload) == a))
      && (k == EricssonStoreInFlash ==> p.command.parameters == StoreInFlashParameters(0xFE, 6, a))
      && (k != CsrWriteBDAddr && k != EricssonStoreInFlash ==> p.command.parameters == AddressParameter(a))
  {
    CsrWritePacketRoundTrip(a, false);
  }

  // ----- the state transitions -----

  function SendPacket(s: HostState, p: Packet): HostState
  {
    s.(sent := s.sent + [p])
  }

  /**
   * `_csr_get_response` as intended: the interceptor stays in the slot
   * while the future is awaited, and the saved handler goes back once the
   * future is done. If the events run out first the call is still
   * suspended with the interceptor installed.
   */
  function CsrAwait(s: HostState): (r: Step)
    requires s.handler.Application?
    ensures r.outcome != Suspended ==> r.state.handler == s.handler
    ensures r.outcome == Suspended ==> r.state.handler == CsrInterceptor(s.handler.id) && r.state.future == Pending
    ensures r.state.sent == s.sent && r.state.localVersion == s.localVersion
    ensures SlotInvariant(r.state)
  {
    var l := Listen(CsrInterceptor(s.handler.id), Pending, s.incoming);
    var s' := s.(delivered := s.delivered + l.deliveries, incoming := l.rest);
    match l.future
    case Done(success) => Step(if success then Completed else Raised(CsrWriteFailed), s'.(future := l.future))
    case _ => Step(Suspended, s'.(handler := CsrInterceptor(s.handler.id), future := Pending))
  }

  /**
   * `_csr_get_response` as written (bdaddr.py:122-142): the `finally` puts
   * the saved handler back before `await future`, so the events arrive at
   * the application's handler while the future waits.
   */
  function CsrAwaitAsWritten(s: HostState): (r: Step)
    requires s.handler.Application?
    ensures r.state.handler == s.handler
    ensures r.state.sent == s.sent && r.state.localVersion == s.localVersion
  {
    var l := Listen(s.handler, Pending, s.incoming);
    var s' := s.(future := l.future, delivered := s.delivered + l.deliveries, incoming := l.rest);
    match l.future
    case Done(success) => Step(if success then Completed else Raised(CsrWriteFailed), s')
    case _ => Step(Suspended, s')
  }

  /**
   * As written, the CSR exchange never completes: whatever the controller
   * sends, every event goes to the application's handler, the future stays
   * pending and the call stays suspended, with the slot as it was on entry.
   */
  lemma CsrAwaitAsWrittenNeverResolves(s: HostState)
    requires s.handler.Application?
    ensures var r := CsrAwaitAsWritten(s);
      && r.outcome == Suspended
      && r.state == s.(future := Pending, delivered := s.delivered + AllTo(s.handler.id, s.incoming), incoming := [])
  {
    ListenWithApplicationHandler(s.handler.id, s.incoming);
  }

  /**
   * The corrected wait resolves at the first succeeding or failing event:
   * the events before it that are not vendor events reach the application,
   * the slot gets its handler back, and the events after it stay unread.
   */
  lemma CsrAwaitResolves(s: HostState, before: seq<Event>, e: Event, after: seq<Event>)
    requires s.handler.Application?
    requires s.incoming == before + [e] + after && NoVerdict(before) && Classify(e) in {Succeed, Fail}
    ensures CsrAwait(s) == Step(if Classify(e) == Succeed then Completed else Raised(CsrWriteFailed),
      s.(future := Done(Classify(e) == Succeed), delivered := s.delivered + ForwardedTo(s.handler.id, before),
         incoming := after))
  {
    ListenResolvesAtFirstVerdict(s.handler.id, before, e, after);
  }

  /**
   * Which `_csr_get_response` a raw packet waits with: the program as
   * written, or the corrected one that keeps the interceptor installed.
   */
  datatype Wait = AsWritten | Corrected

  function CsrWait(s: HostState, wait: Wait): (r: Step)
    requires s.handler.Application?
    ensures r.state.sent == s.sent
    ensures r.outcome != Suspended ==> r.state.handler == s.handler
    ensures wait == AsWritten ==> r.state.handler == s.handler
    ensures SlotInvariant(r.state)
  {
    if wait == AsWritten then CsrAwaitAsWritten(s) else CsrAwait(s)
  }

  /** Sending one packet, then waiting for the CSR reply when it went out raw. */
  function Transmit(s: HostState, p: Packet, wait: Wait): (r: Step)
    requires s.handler.Application?
    ensures |r.state.sent| == |s.sent| + 1 && r.state.sent == s.sent + [p]
    ensures r.outcome != Suspended ==> r.state.handler == s.handler
    ensures SlotInvariant(r.state)
  {
    if p.channel == ViaSendHciPacket then CsrWait(SendPacket(s, p), wait)
    else Step(Completed, SendPacket(s, p))
  }

  /**
   * One call of `bdaddr(device, address, reset)` (bdaddr.py:11-61): the two
   * guards, the write, and the vendor's reset when `reset` is set and the
   * write completed.
   */
  function BdaddrSpec(s: HostState, address: Address, reset: bool, wait: Wait): (r: Step)
    requires s.handler.Application?
    ensures r.outcome != Suspended ==> r.state.handler == s.handler
    ensures SlotInvariant(r.state)
  {
    if address.addressType != PublicDeviceAddress then Step(Raised(NotPublicDeviceAddress), s)
    else if s.localVersion.None? then Step(Raised(NoLocalVersion), s)
    else
      var cid := s.localVersion.value.companyIdentifier;
      match WriteDispatch(cid)
      case UnsupportedWrite => Step(Raised(UnsupportedManufacturer), s)
      case SendWrite(k) =>
        var w := Transmit(s, WritePacket(k, address.bytes), wait);
        if w.outcome != Completed || !reset then w
        else
          match ResetDispatch(cid)
          case NoReset => w
          case SendHciReset => Transmit(w.state, HciResetPacket, wait)
          case CsrResetRoute => Transmit(w.state, CsrResetPacketOf(false), wait)
          case UnsupportedReset => Step(Raised(UnsupportedManufacturer), w.state)
  }

  // ----- properties of a call -----

  /** A non-public address is rejected before anything is read or sent. */
  lemma RejectsNonPublicAddress(s: HostState, address: Address, reset: bool, wait: Wait)
    requires s.handler.Application?
    requires address.addressType != PublicDeviceAddress
    ensures BdaddrSpec(s, address, reset, wait) == Step(Raised(NotPublicDeviceAddress), s)
  {
  }

  /** With no `local_version` the call raises and sends nothing. */
  lemma RejectsMissingLocalVersion(s: HostState, address: Address, reset: bool, wait: Wait)
    requires s.handler.Application?
    requires address.addressType == PublicDeviceAddress && s.localVersion.None?
    ensures BdaddrSpec(s, address, reset, wait) == Step(Raised(NoLocalVersion), s)
  {
  }

  /** An identifier outside the table raises "Unsupported manufacturer" with nothing sent. */
  lemma RejectsUnsupportedManufacturer(s: HostState, address: Address, reset: bool, wait: Wait)
    requires s.handler.Application?
    requires address.addressType == PublicDeviceAddress && s.localVersion.Some?
    requires s.localVersion.value.companyIdentifier !in SupportedIdentifiers
    ensures BdaddrSpec(s, address, reset, wait) == Step(Raised(UnsupportedManufacturer), s)
  {
  }

  /**
   * For a supported identifier exactly one write is sent first, before any
   * reset, and it is the vendor's write packet; at most one more packet
   * follows, and only when `reset` is set.
   */
  lemma SendsOneWriteFirst(s: HostState, address: Address, reset: bool, wait: Wait)
    requires s.handler.Application?
    requires address.addressType == PublicDeviceAddress && s.localVersion.Some?
    requires s.localVersion.value.companyIdentifier in SupportedIdentifiers
    ensures var r := BdaddrSpec(s, address, reset, wait);
      var k := WriteDispatch(s.localVersion.value.companyIdentifier).kind;
      && |s.sent| < |r.state.sent| <= |s.sent| + (if reset then 2 else 1)
      && r.state.sent[..|s.sent|] == s.sent
      && r.state.sent[|s.sent|] == WritePacket(k, address.bytes)
  {
    var cid := s.localVersion.value.companyIdentifier;
    var p := WritePacket(WriteDispatch(cid).kind, address.bytes);
    var w := Transmit(s, p, wait);
    var r := BdaddrSpec(s, address, reset, wait);
    if w.outcome == Completed && reset && ResetDispatch(cid) != NoReset {
      assert ResetDispatch(cid) != UnsupportedReset;
      assert exists q :: r.state.sent == w.state.sent + [q];
      assert r.state.sent == s.sent + [p] + [r.state.sent[|s.sent| + 1]];
    } else {
      assert r.state.sent == s.sent + [p];
    }
  }

  /**
   * The vendors that answer through `send_command` always complete: the
   * write is sent, then the HCI reset for 15, 48 and 57 when `reset` is
   * set, and nothing else changes.
   */
  lemma CommandVendorsComplete(s: HostState, address: Address, reset: bool, wait: Wait)
    requires s.handler.Application?
    requires address.addressType == PublicDeviceAddress && s.localVersion.Some?
    requires s.localVersion.value.companyIdentifier in SupportedIdentifiers - {10}
    ensures var cid := s.localVersion.value.companyIdentifier;
      BdaddrSpec(s, address, reset, wait) == Step(Completed, s.(sent := s.sent + [WritePacket(WriteDispatch(cid).kind, address.bytes)] +
        (if reset && cid in {15, 48, 57} then [HciResetPacket] else [])))
  {
  }

  /** Intel with reset sends only its write; BCM sends its write and then one HCI reset. */
  lemma ResetScenarios(s: HostState, a: AddressBytes, wait: Wait)
    requires s.handler.Application?
    ensures s.localVersion == Some(LocalVersion(2)) ==>
      BdaddrSpec(s, Address(a, PublicDeviceAddress), true, wait).state.sent ==
        s.sent + [Packet(AddressCommand(IntelWriteBDAddr, a), ViaSendCommand)]
    ensures s.localVersion == Some(LocalVersion(15)) ==>
      BdaddrSpec(s, Address(a, PublicDeviceAddress), true, wait).state.sent ==
        s.sent + [Packet(AddressCommand(BcmWriteBDAddr, a), ViaSendCommand), HciResetPacket]
  {
  }

  /**
   * A CSR call (identifier 10) as written: the raw write packet goes out,
   * every event reaches the application's handler, and the call stays
   * suspended on the write with the slot as it was, so no reset is sent
   * even when `reset` is set.
   */
  lemma CsrCallAsWritten(s: HostState, a: AddressBytes, reset: bool)
    requires s.handler.Application? && s.localVersion == Some(LocalVersion(10))
    ensures BdaddrSpec(s, Address(a, PublicDeviceAddress), reset, AsWritten) ==
      Step(Suspended, s.(sent := s.sent + [CsrWritePacketOf(a, false)], future := Pending,
        delivered := s.delivered + AllTo(s.handler.id, s.incoming), incoming := []))
  {
    assert WriteDispatch(10) == SendWrite(CsrWriteBDAddr);
    CsrAwaitAsWrittenNeverResolves(SendPacket(s, CsrWritePacketOf(a, false)));
  }

  /**
   * A CSR call (identifier 10) with a public address and the corrected
   * wait: the raw write packet and its reply, then, when `reset` is set and the write completed, the
   * raw reset packet and its reply.
   */
  lemma CsrCall(s: HostState, a: AddressBytes, reset: bool)
    requires s.handler.Application? && s.localVersion == Some(LocalVersion(10))
    ensures var w := CsrAwait(SendPacket(s, CsrWritePacketOf(a, false)));
      BdaddrSpec(s, Address(a, PublicDeviceAddress), reset, Corrected) ==
        if w.outcome != Completed || !reset then w
        else CsrAwait(SendPacket(w.state, CsrResetPacketOf(false)))
  {
    assert WriteDispatch(10) == SendWrite(CsrWriteBDAddr) && ResetDispatch(10) == CsrResetRoute;
  }

  /**
   * CSR: the write packet goes out raw and the call completes exactly when
   * the controller's first verdict event reports success; events that are
   * not vendor events on the way are handed to the application's handler,
   * and the slot ends as it started.
   */
  lemma CsrWriteCompletes(s: HostState, a: AddressBytes, before: seq<Event>, e: Event, after: seq<Event>)
    requires s.handler.Application? && s.localVersion == Some(LocalVersion(10))
    requires s.incoming == before + [e] + after && NoVerdict(before) && Classify(e) in {Succeed, Fail}
    ensures var r := BdaddrSpec(s, Address(a, PublicDeviceAddress), false, Corrected);
      && r.outcome == (if Classify(e) == Succeed then Completed else Raised(CsrWriteFailed))
      && r.state == s.(sent := s.sent + [CsrWritePacketOf(a, false)], future := Done(Classify(e) == Succeed),
           delivered := s.delivered + ForwardedTo(s.handler.id, before), incoming := after)
  {
    CsrCall(s, a, false);
    ListenResolvesAtFirstVerdict(s.handler.id, before, e, after);
  }

  /** A failed CSR write raises and sends no reset, even when `reset` is set. */
  lemma CsrFailureSkipsReset(s: HostState, a: AddressBytes, lo: byte, hi: byte, after: seq<Event>)
    requires s.handler.Application? && s.localVersion == Some(LocalVersion(10))
    requires lo != 0 || hi != 0
    requires s.incoming == [CsrCompletion(lo, hi)] + after
    ensures var r := BdaddrSpec(s, Address(a, PublicDeviceAddress), true, Corrected);
      && r.outcome == Raised(CsrWriteFailed)
      && r.state.sent == s.sent + [CsrWritePacketOf(a, false)]
      && r.state.handler == s.handler
  {
    CsrCall(s, a, true);
    NonZeroStatusFails(s.handler.id, lo, hi, after);
  }

  /**
   * A successful CSR write with `reset` then sends the CSR reset packet and
   * waits again; the next succeeding event completes the call.
   */
  lemma CsrWriteThenReset(s: HostState, a: AddressBytes, e1: Event, e2: Event, rest: seq<Event>)
    requires s.handler.Application? && s.localVersion == Some(LocalVersion(10))
    requires Classify(e1) == Succeed && Classify(e2) == Succeed
    requires s.incoming == [e1, e2] + rest
    ensures var r := BdaddrSpec(s, Address(a, PublicDeviceAddress), true, Corrected);
      && r.outcome == Completed
      && r.state.sent == s.sent + [CsrWritePacketOf(a, false), CsrResetPacketOf(false)]
      && r.state.handler == s.handler && r.state.incoming == rest
  {
    assert s.incoming == [] + [e1] + ([e2] + rest);
    assert [e2] + rest == [] + [e2] + rest;
    assert s.sent + [CsrWritePacketOf(a, false)] + [CsrResetPacketOf(false)] ==
      s.sent + [CsrWritePacketOf(a, false), CsrResetPacketOf(false)];
    var s1 := SendPacket(s, CsrWritePacketOf(a, false));
    CsrAwaitResolves(s1, [], e1, [e2] + rest);
    var s2 := SendPacket(CsrAwait(s1).state, CsrResetPacketOf(false));
    CsrAwaitResolves(s2, [], e2, rest);
    CsrCall(s, a, true);
  }

  // ----- the host -----

  /** `device.host`: the fields the program reads and writes. */
  class Host {
    var localVersion: Option<LocalVersion>
    var handler: Handler
    var future: FutureState
    var sent: seq<Packet>
    var delivered: seq<Delivery>
    var incoming: seq<Event>

    function State(): HostState
      reads this
    {
      HostState(localVersion, handler, future, sent, delivered, incoming)
    }

    predicate Valid()
      reads this
    {
      SlotInvariant(State())
    }

    /** A host with the application's handler in the slot and the controller's events to come. */
    constructor (localVersion: Option<LocalVersion>, application: nat, incoming: seq<Event>)
      ensures State() == HostState(localVersion, Application(application), NoFuture, [], [], incoming)
      ensures Valid()
    {
      this.localVersion := localVersion;
      handler := Application(application);
      future := NoFuture;
      sent := [];
      delivered := [];
      this.incoming := incoming;
    }

    /** `send_command(command, check_result=True)`, taken to succeed. */
    method SendCommand(c: Command)
      modifies this
      ensures State() == SendPacket(old(State()), Packet(c, ViaSendCommand))
    {
      sent := sent + [Packet(c, ViaSendCommand)];
    }

    /** `send_hci_packet(command)`. */
    method SendHciPacket(c: Command)
      modifies this
      ensures State() == SendPacket(old(State()), Packet(c, ViaSendHciPacket))
    {
      sent := sent + [Packet(c, ViaSendHciPacket)];
    }

    /** The host calling `self.on_hci_event(event)` for one controller event. */
    method OnHciEvent(e: Event)
      modifies this
      ensures var r := React(old(handler), e);
        State() == old(State()).(delivered := old(delivered) + r.deliveries, future := Settle(old(future), r.resolution))
    {
      match handler
      case Application(id) =>
        delivered := delivered + [Delivery(id, e)];
      case CsrInterceptor(origin) =>
        var verdict := Classify(e);
        if verdict == Forward {
          delivered := delivered + [Delivery(origin, e)];
        } else if verdict == Succeed {
          if future == Pending { future := Done(true); }
        } else if verdict == Fail {
          if future == Pending { future := Done(false); }
        }
    }

    /** `await future`: the event loop hands the controller's events to the slot until the future is done. */
    method AwaitFuture()
      modifies this
      ensures var l := Listen(old(handler), old(future), old(incoming));
        State() == old(State()).(future := l.future, delivered := old(delivered) + l.deliveries, incoming := l.rest)
    {
      while future == Pending && incoming != []
        invariant handler == old(handler) && sent == old(sent) && localVersion == old(localVersion)
        invariant var l0 := Listen(old(handler), old(future), old(incoming));
          var l := Listen(handler, future, incoming);
          l.future == l0.future && l.rest == l0.rest && delivered + l.deliveries == old(delivered) + l0.deliveries
        decreases |incoming|
      {
        var e := incoming[0];
        incoming := incoming[1..];
        OnHciEvent(e);
      }
    }

    /** `_csr_get_response` with the interceptor kept until the future is done. */
    method CsrGetResponse() returns (outcome: Outcome)
      requires handler.Application?
      modifies this
      ensures Step(outcome, State()) == CsrAwait(old(State()))
      ensures Valid()
    {
      ghost var s0 := State();
      future := Pending;
      var origin := handler;
      handler := CsrInterceptor(origin.id);
      AwaitFuture();
      ghost var l := Listen(CsrInterceptor(s0.handler.id), Pending, s0.incoming);
      assert State() == s0.(handler := CsrInterceptor(s0.handler.id), future := l.future,
        delivered := s0.delivered + l.deliveries, incoming := l.rest);
      match future
      case Done(success) =>
        handler := origin;
        outcome := if success then Completed else Raised(CsrWriteFailed);
      case _ =>
        outcome := Suspended;
    }

    /** `_csr_get_response` as written: the `finally` restores the slot before `await future`. */
    method CsrGetResponseAsWritten() returns (outcome: Outcome)
      requires handler.Application?
      modifies this
      ensures Step(outcome, State()) == CsrAwaitAsWritten(old(State()))
      ensures handler == old(handler) && outcome == Suspended
    {
      future := Pending;
      var origin := handler;
      handler := CsrInterceptor(origin.id);
      handler := origin;
      AwaitFuture();
      assert State() == CsrAwaitAsWritten(old(State())).state;
      CsrAwaitAsWrittenNeverResolves(old(State()));
      match future
      case Done(success) =>
        outcome := if success then Completed else Raised(CsrWriteFailed);
      case _ =>
        outcome := Suspended;
    }

    /** The reply wait after a raw packet, as written or corrected. */
    method AwaitCsrReply(wait: Wait) returns (outcome: Outcome)
      requires handler.Application?
      modifies this
      ensures Step(outcome, State()) == CsrWait(old(State()), wait)
    {
      if wait == AsWritten {
        outcome := CsrGetResponseAsWritten();
      } else {
        outcome := CsrGetResponse();
      }
    }

    /** `_ericsson_bdaddr`, `_intel_bdaddr`, `_ti_bdaddr`, `_bcm_bdaddr`, `_zeevo_bdaddr`, `_cys_bdaddr`. */
    method AddressBdaddr(k: CommandKind, a: AddressBytes)
      requires k in {EricssonWriteBDAddr, IntelWriteBDAddr, TiWriteBDAddr, BcmWriteBDAddr, ZeevoWriteBDAddr, CysWriteBDAddr}
      modifies this
      ensures State() == SendPacket(old(State()), WritePacket(k, a))
    {
      SendCommand(AddressCommand(k, a));
    }

    /** `_st_bdaddr`. */
    method StBdaddr(a: AddressBytes)
      modifies this
      ensures State() == SendPacket(old(State()), WritePacket(EricssonStoreInFlash, a))
    {
      SendCommand(StoreInFlashCommand(a));
    }

    /** `_csr_bdaddr(device, address, transient)`. */
    method CsrBdaddr(a: AddressBytes, transient: bool, wait: Wait) returns (outcome: Outcome)
      requires handler.Application?
      modifies this
      ensures Step(outcome, State()) == Transmit(old(State()), CsrWritePacketOf(a, transient), wait)
    {
      var payload := BuildCsrWritePacket(a, transient);
      SendHciPacket(Command(CsrWriteBDAddr, PayloadParameter(payload)));
      outcome := AwaitCsrReply(wait);
    }

    /** `_csr_reset(device, transient)`. */
    method CsrReset(transient: bool, wait: Wait) returns (outcome: Outcome)
      requires handler.Application?
      modifies this
      ensures Step(outcome, State()) == Transmit(old(State()), CsrResetPacketOf(transient), wait)
    {
      var payload := BuildCsrResetPacket(transient);
      SendHciPacket(Command(CsrWriteBDAddr, PayloadParameter(payload)));
      outcome := AwaitCsrReply(wait);
    }

    /** `bdaddr(device, address, reset)`. */
    method Bdaddr(address: Address, reset: bool, wait: Wait) returns (outcome: Outcome)
      requires handler.Application?
      modifies this
      ensures Step(outcome, State()) == BdaddrSpec(old(State()), address, reset, wait)
      ensures Valid()
    {
      if address.addressType != PublicDeviceAddress {
        return Raised(NotPublicDeviceAddress);
      }
      if localVersion.None? {
        return Raised(NoLocalVersion);
      }
      var cid := localVersion.value.companyIdentifier;
      var a := address.bytes;
      match WriteDispatch(cid)
      case UnsupportedWrite =>
        return Raised(UnsupportedManufacturer);
      case SendWrite(k) =>
        if k == CsrWriteBDAddr {
          outcome := CsrBdaddr(a, false, wait);
          if outcome != Completed {
            return;
          }
        } else if k == EricssonStoreInFlash {
          StBdaddr(a);
          outcome := Completed;
        } else {
          AddressBdaddr(k, a);
          outcome := Completed;
        }
      if reset {
        match ResetDispatch(cid)
        case NoReset =>
        case SendHciReset =>
          SendCommand(Command(HciReset, NoParameters));
        case CsrResetRoute =>
          outcome := CsrReset(false, wait);
        case UnsupportedReset =>
          outcome := Raised(UnsupportedManufacturer);
      }
    }
  }
}
