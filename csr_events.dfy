/**
 * The CSR completion protocol of `_csr_get_response` (bdaddr.py:122-142):
 * the decision the inner `on_hci_event` takes on each event, and what the
 * host's single event-handler slot does with a stream of events while a
 * future is pending.
 */
module CsrEvents {
  import opened Hci

  /** An HCI event as the host hands it to `on_hci_event`. */
  datatype Event = Event(eventCode: byte, parameters: seq<byte>)

  /** The vendor-specific event code the CSR controller answers with. */
  const VendorEventCode: byte := 0xFF

  /**
   * What the interceptor does with one event: hand it to the saved handler,
   * resolve the future with success or failure, or raise `IndexError`
   * while reading a parameter that is not there.
   */
  datatype Verdict = Forward | Succeed | Fail | Raises

  /**
   * The status test at bdaddr.py:130 as Python parses it:
   * `((res[9] + res[10]) << 8) == 0`, since `+` binds tighter than `<<`.
   */
  predicate StatusIsZero(res: seq<byte>)
    requires |res| >= 11
  {
    Shl(res[9] as int + res[10] as int, 8) == 0
  }

  /**
   * The inner `on_hci_event` (bdaddr.py:127-135). `and` short-circuits, so a
   * first byte other than 0xC2 fails without reading bytes 9 and 10; an
   * empty parameter list, or a 0xC2 one shorter than 11 bytes, raises.
   */
  function Classify(e: Event): (v: Verdict)
    ensures v == Forward <==> e.eventCode != VendorEventCode
    ensures v == Raises <==> (e.eventCode == VendorEventCode &&
      (|e.parameters| == 0 || (e.parameters[0] == 0xC2 && |e.parameters| < 11)))
    ensures v == Succeed <==> (e.eventCode == VendorEventCode && |e.parameters| >= 11 &&
      e.parameters[0] == 0xC2 && e.parameters[9] == 0 && e.parameters[10] == 0)
    ensures v == Fail <==> (e.eventCode == VendorEventCode && |e.parameters| >= 1 &&
      (e.parameters[0] != 0xC2 || (|e.parameters| >= 11 && (e.parameters[9] != 0 || e.parameters[10] != 0))))
  {
    var res := e.parameters;
    if e.eventCode != VendorEventCode then Forward
    else if |res| == 0 then Raises
    else if res[0] != 0xC2 then Fail
    else if |res| < 11 then Raises
    else
      StatusZeroIffBothZero(res[9], res[10]);
      if StatusIsZero(res) then Succeed else Fail
  }

  /**
   * On bytes the parsed test means both status bytes are zero, which is also
   * what the little-endian reading `res[9] + (res[10] << 8) == 0` means.
   */
  lemma StatusZeroIffBothZero(lo: byte, hi: byte)
    ensures Shl(lo as int + hi as int, 8) == 0 <==> lo == 0 && hi == 0
    ensures Shl(lo as int + hi as int, 8) == 0 <==> lo as int + Shl(hi, 8) == 0
  {
    assert Pow2(8) == 256;
  }

  /** Every vendor event resolves one way or the other unless reading it raises. */
  lemma VendorEventResolves(e: Event)
    requires e.eventCode == VendorEventCode && |e.parameters| >= 11
    ensures Classify(e) == Succeed || Classify(e) == Fail
    ensures Classify(e) == Succeed <==>
      e.parameters[0] == 0xC2 && e.parameters[9] as int + Shl(e.parameters[10], 8) == 0
  {
    StatusZeroIffBothZero(e.parameters[9], e.parameters[10]);
  }

  // ----- the handler slot and the future -----

  /**
   * The value of `device.host.on_hci_event`: the application's own handler
   * (identified by a number), or the interceptor of `_csr_get_response`
   * holding the handler it saved.
   */
  datatype Handler = Application(id: nat) | CsrInterceptor(origin: nat)

  /** One event received by an application handler. */
  datatype Delivery = Delivery(handlerId: nat, event: Event)

  /** The asyncio future `_csr_get_response` creates: unset, pending or done. */
  datatype FutureState = NoFuture | Pending | Done(success: bool)

  /** What one call of the installed handler does: events handed on, and a resolution. */
  datatype Reaction = Reaction(deliveries: seq<Delivery>, resolution: Option<bool>)

  /**
   * The application's handler receives every event; the interceptor resolves
   * only on a succeeding or failing vendor event and hands nothing on then.
   */
  function React(h: Handler, e: Event): (r: Reaction)
    ensures |r.deliveries| <= 1 && forall d :: d in r.deliveries ==> d.event == e
    ensures r.deliveries != [] <==> h.Application? || Classify(e) == Forward
    ensures r.resolution.Some? <==> h.CsrInterceptor? && Classify(e) in {Succeed, Fail}
    ensures r.resolution == Some(true) <==> h.CsrInterceptor? && Classify(e) == Succeed
  {
    match h
    case Application(id) => Reaction([Delivery(id, e)], None)
    case CsrInterceptor(origin) =>
      match Classify(e)
      case Forward => Reaction([Delivery(origin, e)], None)
      case Succeed => Reaction([], Some(true))
      case Fail => Reaction([], Some(false))
      case Raises => Reaction([], None)
  }

  /**
   * `set_result` / `set_exception` when the future is still pending: a done or missing
   * future is left alone, and a pending one stays pending without a resolution.
   */
  function Settle(f: FutureState, resolution: Option<bool>): (r: FutureState)
    ensures f != Pending ==> r == f
    ensures r == Pending <==> f == Pending && resolution.None?
    ensures f == Pending && resolution.Some? ==> r.Done? && r.success == resolution.value
  {
    if f == Pending && resolution.Some? then Done(resolution.value) else f
  }

  /** The interceptor hands on exactly the events that are not vendor events, unchanged. */
  lemma InterceptorForwardsOthers(origin: nat, e: Event)
    ensures var r := React(CsrInterceptor(origin), e);
      (r.deliveries == [Delivery(origin, e)] <==> e.eventCode != VendorEventCode)
      && (r.deliveries == [] <==> e.eventCode == VendorEventCode)
      && (r.resolution.Some? ==> e.eventCode == VendorEventCode)
  {
  }

  /** What `await future` leaves: the events handed on, the future, the events not yet read. */
  datatype Listened = Listened(deliveries: seq<Delivery>, future: FutureState, rest: seq<Event>)

  /**
   * The host's event loop while `await future` is suspended: each incoming
   * event goes to the handler in the slot until the future is done.
   */
  function Listen(h: Handler, f: FutureState, events: seq<Event>): (l: Listened)
    ensures l.future == f || (f == Pending && l.future.Done?)
    decreases |events|
  {
    if f != Pending || events == [] then Listened([], f, events)
    else
      var r := React(h, events[0]);
      var l := Listen(h, Settle(f, r.resolution), events[1..]);
      Listened(r.deliveries + l.deliveries, l.future, l.rest)
  }

  /** Every event handed to application handler `id`, in order. */
  function AllTo(id: nat, events: seq<Event>): (ds: seq<Delivery>)
    ensures |ds| == |events|
    ensures forall i :: 0 <= i < |events| ==> ds[i] == Delivery(id, events[i])
  {
    if events == [] then [] else [Delivery(id, events[0])] + AllTo(id, events[1..])
  }

  /** The non-vendor events of a stream handed to application handler `id`, in order. */
  function ForwardedTo(id: nat, events: seq<Event>): (ds: seq<Delivery>)
    ensures |ds| <= |events|
    ensures forall d :: d in ds ==> d.handlerId == id && d.event in events && d.event.eventCode != VendorEventCode
  {
    if events == [] then []
    else if events[0].eventCode != VendorEventCode then [Delivery(id, events[0])] + ForwardedTo(id, events[1..])
    else ForwardedTo(id, events[1..])
  }

  /** No event of the stream resolves the future. */
  predicate NoVerdict(events: seq<Event>)
  {
    forall i :: 0 <= i < |events| ==> Classify(events[i]) in {Forward, Raises}
  }

  /**
   * With the application's own handler in the slot the future never
   * resolves: every event goes to that handler and the future stays pending.
   */
  lemma {:induction false} ListenWithApplicationHandler(id: nat, events: seq<Event>)
    ensures Listen(Application(id), Pending, events) == Listened(AllTo(id, events), Pending, [])
    decreases |events|
  {
    if events != [] {
      ListenWithApplicationHandler(id, events[1..]);
    }
  }

  /**
   * With the interceptor installed, the future resolves at the first event
   * that succeeds or fails; the events before it that are not vendor events
   * are handed on unchanged and the events after it are left unread.
   */
  lemma {:induction false} ListenResolvesAtFirstVerdict(origin: nat, before: seq<Event>, e: Event, after: seq<Event>)
    requires NoVerdict(before)
    requires Classify(e) in {Succeed, Fail}
    ensures Listen(CsrInterceptor(origin), Pending, before + [e] + after) ==
      Listened(ForwardedTo(origin, before), Done(Classify(e) == Succeed), after)
    decreases |before|
  {
    var events := before + [e] + after;
    if before == [] {
      assert events[1..] == after;
    } else {
      assert events[0] == before[0];
      assert events[1..] == before[1..] + [e] + after;
      assert NoVerdict(before[1..]) by {
        forall i | 0 <= i < |before[1..]| ensures Classify(before[1..][i]) in {Forward, Raises} {
          assert before[1..][i] == before[i + 1];
        }
      }
      assert Classify(before[0]) in {Forward, Raises};
      ListenResolvesAtFirstVerdict(origin, before[1..], e, after);
    }
  }

  /** With no event that resolves it, the future stays pending and every event is read. */
  lemma {:induction false} ListenWithoutVerdict(origin: nat, events: seq<Event>)
    requires NoVerdict(events)
    ensures Listen(CsrInterceptor(origin), Pending, events) == Listened(ForwardedTo(origin, events), Pending, [])
    decreases |events|
  {
    if events != [] {
      assert Classify(events[0]) in {Forward, Raises};
      assert NoVerdict(events[1..]) by {
        forall i | 0 <= i < |events[1..]| ensures Classify(events[1..][i]) in {Forward, Raises} {
          assert events[1..][i] == events[i + 1];
        }
      }
      ListenWithoutVerdict(origin, events[1..]);
    }
  }

  /** A CSR completion event with the given status bytes. */
  function CsrCompletion(lo: byte, hi: byte): (e: Event)
    ensures e.eventCode == VendorEventCode && |e.parameters| == 11
  {
    Event(VendorEventCode, [0xC2, 0, 0, 0, 0, 0, 0, 0, 0, lo, hi])
  }

  /**
   * Two unrelated events and then a CSR completion with zero status: the two
   * are handed on untouched, the future succeeds on the third, and a fourth
   * event is left unread.
   */
  lemma ThirdEventResolves(origin: nat, e1: Event, e2: Event, e4: Event)
    requires e1.eventCode != VendorEventCode && e2.eventCode != VendorEventCode
    ensures Listen(CsrInterceptor(origin), Pending, [e1, e2, CsrCompletion(0, 0), e4]) ==
      Listened([Delivery(origin, e1), Delivery(origin, e2)], Done(true), [e4])
  {
    var e3 := CsrCompletion(0, 0);
    assert [e1, e2, e3, e4] == [e1, e2] + [e3] + [e4];
    assert NoVerdict([e1, e2]);
    ListenResolvesAtFirstVerdict(origin, [e1, e2], e3, [e4]);
    assert [e1, e2][1..] == [e2];
  }

  /** A completion with a non-zero status fails the future. */
  lemma NonZeroStatusFails(origin: nat, lo: byte, hi: byte, after: seq<Event>)
    requires lo != 0 || hi != 0
    ensures Listen(CsrInterceptor(origin), Pending, [CsrCompletion(lo, hi)] + after) ==
      Listened([], Done(false), after)
  {
    assert [CsrCompletion(lo, hi)] + after == [] + [CsrCompletion(lo, hi)] + after;
    ListenResolvesAtFirstVerdict(origin, [], CsrCompletion(lo, hi), after);
  }
}
