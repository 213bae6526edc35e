# bdaddr: programming a Bluetooth controller's public address

`bdaddr.py` sets a controller's public device address through bumble's host.
It first checks that the address is a public device address and that the
host knows the controller's `local_version`. The company identifier then
selects one vendor's write:

- an address command through `send_command` for Ericsson, Intel, TI, BCM,
  Zeevo and CYS;
- a store-in-flash command for ST;
- a raw packet for CSR, after which `_csr_get_response` waits for a vendor
  event (0xFF) from the controller. It builds an interceptor for the host's
  `on_hci_event` slot to catch that event, but its `finally` puts the saved
  handler back before the wait starts. As written, the interceptor never
  sees the event and the wait never ends (see "Findings"). The model has
  both waits: `Wait.AsWritten`, the code as it stands, and
  `Wait.Corrected`, which keeps the interceptor until the future is done.

When `reset` is set, it then runs the vendor's reset:

- an `HCI_Reset` command for 15, 48 and 57;
- a CSR reset packet for 10;
- nothing for the other supported vendors.

The eight vendor command classes are declared with the `_hci_command`
decorator. It sets each class's `name`, `op_code`, `fields` and
`return_parameters_fields`, and stores the class in
`HCI_Command.command_classes` under its op-code.

The model has five modules:

- `Hci`
  - bytes and the op-code layout `(OGF << 10) | OCF` (Bluetooth Core
    Specification, Vol 4, Part E, section 5.4.1);
  - Python's `|` and `<<` on ints;
  - `bytearray.fromhex`.
- `VendorCommands`
  - the command kinds and their op-codes;
  - the commands each path builds;
  - the two CSR packets. They are built in place on an `array` exactly as
    `_csr_bdaddr` and `_csr_reset` patch their `bytearray`, and proved equal to
    byte-exact specification functions.
- `CsrEvents`
  - the decision the inner `on_hci_event` takes on one event;
  - what the slot does with a stream of events while the future is pending
    (`Listen`).
- `CommandRegistry`
  - the default-name rule;
  - `class CommandClass`, with the attributes the decorator assigns;
  - `class Registry`, whose `commandClasses` map the decorator updates
    (last writer wins).
- `Bdaddr`
  - the pure transition `BdaddrSpec` on a `HostState`, with lemmas about it.
    It takes the CSR wait as a parameter. The lemmas that do not depend on
    the CSR reply hold for both waits. `CsrCallAsWritten` is the CSR call
    as written. The other CSR lemmas are about the corrected wait and say so;
  - `class Host`, whose fields are that state. Its methods follow the
    program's statements, and each is proved to take the state to exactly
    what the matching function says.

The controller and the event loop are inputs:

- the events the controller will deliver are a queue (`incoming`) given up
  front;
- `await future` is the event loop handing those events, one at a time, to
  whatever handler is in the slot, until the future is done or the queue is
  empty. An empty queue leaves the call `Suspended`.

The CSR write template at bdaddr.py:96 has 48 hex digits, so it is 24 bytes
and the write packet is 25 bytes. The reset template at bdaddr.py:114 has 36
hex digits, so it is 18 bytes and its packet is 19 bytes. Both counts are
proved from the strings (`CsrWriteTemplate`, `CsrResetTemplate`).

The interceptor at bdaddr.py:127-135 swallows every vendor event. A second
vendor event after the future is done is not forwarded: the interceptor
calls `set_result` or `set_exception` on the done future again. See
"## Left out".

## Model

| member | source | states |
|---|---|---|
| `Hci.OpCode` | bdaddr.py:177 | For a 10-bit OCF, `(ogf << 10) \| ocf` equals `ogf*0x400 + ocf`, and the OGF and OCF are read back by `/ 0x400` and `% 0x400`. |
| `Hci.BitOr` | bdaddr.py:177 | Python's `x \| y` on non-negative ints is at least each operand and at most their sum. |
| `Hci.Shl` | bdaddr.py:177 | Python's `x << n`: a shift by zero is `x`, and each further place doubles it. |
| `Hci.BitOrShifted` | bdaddr.py:177 | Or-ing a value below `2^n` into `x << n` adds it: the bits do not overlap. |
| `Hci.FromHex` | bdaddr.py:96 | `fromhex` succeeds exactly on an even number of hex digits. Then the result has half as many bytes, and byte k is the value of digits 2k and 2k+1. |
| `VendorCommands.OpCodeOf` | bdaddr.py:176-238 | Each class's op-code has its OGF in the top bits and its OCF in the low ten. Every vendor class is in OGF 0x3F. |
| `VendorCommands.OpCodeOfIsHciOpCode` | bdaddr.py:177 | That layout is exactly `hci_command_op_code(ogf, ocf)`, that is `(ogf << 10) \| ocf`. |
| `VendorCommands.OpCodeTable` | bdaddr.py:176-238 | The op-codes: Ericsson 0xFC0D, store-in-flash 0xFC22, CSR 0xFC00, TI 0xFC06, Intel 0xFC31; BCM, CYS and Zeevo all 0xFC01; HCI_Reset 0x0C03. |
| `VendorCommands.OpCodeCollisions` | bdaddr.py:209-238 | Two classes share an op-code exactly when they are the same class, or both are among the OCF-0x0001 vendor classes. |
| `VendorCommands.StoreInFlashCommand` | bdaddr.py:163-167 | The ST command is `_Ericsson_Store_In_Flash_Command` (0xFC22) with `user_id` 0xFE, `length` 6 and `data` the six address bytes. |
| `VendorCommands.CsrWriteTemplateHexDigits` | bdaddr.py:96 | The write template is 48 characters, all hex digits, and digits 28 and 29 (byte 14) are `00`. |
| `VendorCommands.CsrResetTemplateHexDigits` | bdaddr.py:114 | The reset template is 36 characters, all hex digits, and digits 12 and 13 (byte 6) are `01`. |
| `VendorCommands.CsrWriteTemplate` | bdaddr.py:96 | `fromhex` of the write template succeeds with 24 bytes; byte 14, the transient flag, is 0x00. |
| `VendorCommands.CsrResetTemplate` | bdaddr.py:114 | `fromhex` of the reset template succeeds with 18 bytes; byte 6, the flag, is 0x01. |
| `VendorCommands.CsrWritePacket` | bdaddr.py:94-108 | The write packet is 25 bytes with the 0xC2 marker first, and its flag byte (template byte 14) is 0x08 when transient and 0x00 otherwise. |
| `VendorCommands.CsrResetPacket` | bdaddr.py:113-117 | The reset packet is 19 bytes with the 0xC2 marker first, and its flag byte (template byte 6) is 0x02 when transient and 0x01 otherwise. |
| `VendorCommands.CsrPacketAddress` | bdaddr.py:99-107 | Reading the six address bytes back out of a 25-byte packet gives six bytes. |
| `VendorCommands.CsrWritePacketLayout` | bdaddr.py:94-108 | The write packet has 25 bytes with 0xC2 first. Every template byte outside 14 and 16..23 is unchanged. Byte 14 is 0x08 when transient and the template's otherwise. Bytes 16..23 are `a[2],0,a[0],a[1],a[3],0,a[4],a[5]`. |
| `VendorCommands.CsrWritePacketRoundTrip` | bdaddr.py:97-107 | The address reads back from the write packet, and packet byte 15 is 0x08 exactly when transient. |
| `VendorCommands.CsrWritePacketInjective` | bdaddr.py:94-108 | Two write packets are equal exactly when their addresses and flags are. |
| `VendorCommands.CsrResetPacketLayout` | bdaddr.py:113-117 | The reset packet has 19 bytes: 0xC2, then the template unchanged except byte 6, which is 0x02 when transient and 0x01 otherwise. |
| `VendorCommands.CsrWritePacketOfPayload` | bdaddr.py:96-108 | A 24-byte buffer patched the way `_csr_bdaddr` patches it, with 0xC2 prepended, is the write packet. |
| `VendorCommands.PatchAddress` | bdaddr.py:99-107 | The eight stores put the address bytes at payload offsets 16..23 in the order 2, 0, 1, 3, 4, 5, with zeros at 17 and 21. Offsets 0..15 are left unchanged. |
| `VendorCommands.BuildCsrWritePacket` | bdaddr.py:94-108 | Decoding the template into an array, patching bytes 14 and 16..23 in place and prepending 0xC2 yields the write packet, and the address reads back from it. |
| `VendorCommands.CsrResetPacketOfPayload` | bdaddr.py:114-117 | An 18-byte buffer equal to the reset template except its flag byte, with 0xC2 prepended, is the reset packet. |
| `VendorCommands.BuildCsrResetPacket` | bdaddr.py:113-117 | Decoding and patching the reset template in place yields the 19-byte reset packet starting with 0xC2. |
| `CsrEvents.Classify` | bdaddr.py:127-135 | Each direction of each outcome is stated. Non-0xFF events are forwarded. An empty parameter list raises `IndexError`, and so does an 0xC2 one shorter than 11 bytes. A first byte other than 0xC2 fails. Otherwise the event succeeds exactly when bytes 9 and 10 are both zero. |
| `CsrEvents.StatusZeroIffBothZero` | bdaddr.py:130 | `((lo + hi) << 8) == 0`, as Python parses line 130, holds exactly when both bytes are zero. It agrees with the little-endian reading `lo + (hi << 8) == 0`. |
| `CsrEvents.VendorEventResolves` | bdaddr.py:128-133 | Every vendor event of at least 11 bytes resolves the future one way or the other. It succeeds exactly on 0xC2 with a zero 16-bit status. |
| `CsrEvents.InterceptorForwardsOthers` | bdaddr.py:127-135 | The interceptor hands on exactly the non-vendor events, unchanged, to the saved handler. It swallows vendor events, and only they can resolve the future. |
| `CsrEvents.React` | bdaddr.py:127-135 | One handler call hands on at most the event itself. The application's handler receives every event, and the interceptor forwards exactly the non-vendor ones. Only the interceptor resolves, exactly on a succeeding or failing vendor event, with success exactly on a succeeding one. |
| `CsrEvents.Settle` | bdaddr.py:131-133 | A future that is done, or was never created, is left alone. A pending future stays pending exactly when nothing resolves it; otherwise it is done with the resolution's value. |
| `CsrEvents.Listen` | bdaddr.py:142 | Awaiting leaves an unpending future unchanged, and a pending one either pending or done. |
| `CsrEvents.ListenWithApplicationHandler` | bdaddr.py:137-142 | With the application's handler in the slot, every event goes to it and the future never resolves. |
| `CsrEvents.ListenResolvesAtFirstVerdict` | bdaddr.py:127-142 | With the interceptor installed, the future resolves at the first succeeding or failing event, with that result. The non-vendor events before it are handed on in order, and the events after it are left unread. |
| `CsrEvents.ListenWithoutVerdict` | bdaddr.py:127-142 | With no succeeding or failing event, the future stays pending, every event is read, and the non-vendor ones are handed on in order. |
| `CsrEvents.ThirdEventResolves` | bdaddr.py:127-142 | Two unrelated events, then a zero-status completion: the two are forwarded untouched, the future succeeds on the third, and a fourth is left unread. |
| `CsrEvents.NonZeroStatusFails` | bdaddr.py:130-133 | A completion with a non-zero status byte fails the future at once. |
| `CommandRegistry.AsciiUpper` | bdaddr.py:66 | `upper` maps `a`..`z` to `A`..`Z`, leaves every other character alone, and leaves no lower-case letter. |
| `CommandRegistry.Upper` | bdaddr.py:66 | `upper` keeps the length and leaves no lower-case ASCII letter. |
| `CommandRegistry.StripLeading` | bdaddr.py:66 | `lstrip` returns a suffix. Everything cut off is the stripped character, and the suffix does not start with it. |
| `CommandRegistry.StripTrailing` | bdaddr.py:66 | `rstrip` returns a prefix. Everything cut off is the stripped character, and the prefix does not end with it. |
| `CommandRegistry.Strip` | bdaddr.py:66 | `strip(c)` is never longer than its input, neither starts nor ends with `c`, and returns a string holding no `c` unchanged. |
| `CommandRegistry.StripKeepsMiddle` | bdaddr.py:66 | `strip("_")` returns a contiguous slice of its input, and everything cut off on either side is `_`. |
| `CommandRegistry.StripIdempotent` | bdaddr.py:66 | Stripping twice strips nothing more. |
| `CommandRegistry.DefaultName` | bdaddr.py:66 | The default name has no lower-case letter and no leading or trailing underscore. |
| `CommandRegistry.CommandName` | bdaddr.py:66 | A non-empty `name` is used as given. `None` and `""` both fall back to the class name upper-cased and stripped of `_`. |
| `CommandRegistry.DefaultNameOfPrivateClass` | bdaddr.py:66 | A class name with one leading `_` and no trailing one, such as `_Zeevo_Write_BDAddr_Command`, gets its upper-cased name without that underscore. |
| `CommandRegistry.RegisterAll` | bdaddr.py:76 | A run of `command_classes[op] = cls` stores never removes a key. |
| `CommandRegistry.LastRegistrationWins` | bdaddr.py:76 | After a run of `command_classes[op] = cls` stores, a key holds the class of its last store. |
| `CommandRegistry.RegistrationsElsewhereKeep` | bdaddr.py:76 | Keys no store names keep their old entry, or stay absent. |
| `CommandRegistry.RegisterAllKeys` | bdaddr.py:76 | The keys afterwards are the old keys plus every registered op-code. |
| `CommandRegistry.Registry.HciCommand` | bdaddr.py:64-77 | The decorator sets `name` (by the `or` rule), `op_code`, `fields` and `return_parameters_fields` on the class. `__init__` is replaced whenever `fields` is not `None`. The class is stored under its op-code, overwriting any earlier entry, and no other key changes. |
| `CommandRegistry.Registry.Declare` | bdaddr.py:176-181 | One decorated class statement makes a new class with its Python class name, op-code, fields and `return_parameters_fields=[]`. `__init__` is replaced, and the class is registered under its op-code. |
| `CommandRegistry.Registry.DeclareVendorCommands` | bdaddr.py:176-238 | The eight decorators run in source order, and each makes a new, distinct class with its own op-code and fields. Afterwards the dictionary is exactly the old one with the eight registrations applied in that order (so `ZeevoOwnsSharedOpCode` applies to it). |
| `CommandRegistry.ZeevoOwnsSharedOpCode` | bdaddr.py:209-238 | By last-writer-wins alone: registering the eight classes in declaration order leaves 0xFC01 with the eighth (Zeevo) and adds exactly the six distinct op-codes. |
| `Bdaddr.WriteDispatch` | bdaddr.py:19-39 | The write dispatch selects a vendor path exactly for 0, 2, 10, 13, 15, 18, 48, 57 and 305, and none of those paths is `HCI_Reset`. |
| `Bdaddr.ResetDispatch` | bdaddr.py:40-61 | The reset dispatch sends `HCI_Reset` exactly for 15, 48 and 57, the CSR reset exactly for 10, and takes `case _` exactly outside the nine supported identifiers. |
| `Bdaddr.ResetFallbackUnreachable` | bdaddr.py:40-61 | The reset dispatch's `case _` is taken exactly for the identifiers the write dispatch already rejected, so it is unreachable. |
| `Bdaddr.WriteDispatchTable` | bdaddr.py:19-39 | 0 and 57 select Ericsson (0xFC0D), 2 Intel (0xFC31), 10 CSR, 13 TI (0xFC06), 48 store-in-flash (0xFC22). 15, 18 and 305 select BCM, Zeevo and CYS, all 0xFC01. |
| `Bdaddr.WritePacket` | bdaddr.py:82-173 | Each vendor path's packet carries that vendor's command, and only the CSR one goes out raw through `send_hci_packet`. |
| `Bdaddr.WritePacketContents` | bdaddr.py:82-173 | Only CSR goes out raw: its payload is the 25-byte write packet, from which the address reads back. ST sends `user_id` 0xFE, `length` 6, `data` = the address. The six other vendors send the address unchanged. |
| `Bdaddr.CsrAwait` | bdaddr.py:122-142 | The corrected `_csr_get_response`. Once the future is done, the slot holds the handler it held on entry. While still waiting, it holds the interceptor and the future is pending. Nothing is sent. |
| `Bdaddr.CsrAwaitAsWritten` | bdaddr.py:122-142 | `_csr_get_response` as written: the slot ends holding the handler it held on entry, nothing is sent, and `local_version` is untouched. |
| `Bdaddr.CsrAwaitAsWrittenNeverResolves` | bdaddr.py:137-142 | As written, the CSR exchange never completes. Every controller event goes to the application's handler, the future stays pending, and the slot is as it was on entry. |
| `Bdaddr.Transmit` | bdaddr.py:109-110 | With either wait, sending appends exactly one packet. Unless still suspended, it leaves the slot as it found it. |
| `Bdaddr.BdaddrSpec` | bdaddr.py:11-61 | With either wait, a call that is not suspended leaves the handler slot as it found it, and the interceptor is in the slot only while its future is pending. |
| `Bdaddr.RejectsNonPublicAddress` | bdaddr.py:12-13 | With either wait, a non-public address raises, with the state untouched: nothing read, nothing sent. |
| `Bdaddr.RejectsMissingLocalVersion` | bdaddr.py:14-16 | With either wait, a missing `local_version` raises with the state untouched. |
| `Bdaddr.RejectsUnsupportedManufacturer` | bdaddr.py:38-39 | With either wait, an identifier outside the table raises "Unsupported manufacturer" with nothing sent. |
| `Bdaddr.SendsOneWriteFirst` | bdaddr.py:19-61 | With either wait, for a supported identifier, the vendor's write packet is the first packet sent, and one more follows at most, only when `reset` is set. |
| `Bdaddr.CommandVendorsComplete` | bdaddr.py:19-61 | With either wait, every non-CSR vendor completes having sent its write. With `reset`, identifiers 15, 48 and 57 then send one `HCI_Reset`; nothing else changes. |
| `Bdaddr.ResetScenarios` | bdaddr.py:40-59 | With either wait, with `reset`, Intel (2) sends only its write, and BCM (15) sends its write and then exactly one `HCI_Reset`. |
| `Bdaddr.CsrAwaitResolves` | bdaddr.py:122-142 | The corrected wait ends at the first succeeding or failing event, with that outcome. The non-vendor events before it reach the application, the slot gets its handler back, and the later events stay unread. |
| `Bdaddr.CsrWait` | bdaddr.py:110-119 | Either wait sends nothing and keeps the slot invariant. Unless still suspended it restores the slot, and the wait as written always does. |
| `Bdaddr.CsrCallAsWritten` | bdaddr.py:24-47 | As written, with the wait of bdaddr.py:137-142, a CSR call (identifier 10) sends exactly the raw write packet, hands every controller event to the application, and ends `Suspended` with the future pending and the slot as it was on entry. No reset is sent, even with `reset` set. |
| `Bdaddr.CsrCall` | bdaddr.py:24-47 | (corrected wait) For identifier 10, a call sends the raw write packet and waits. Only when `reset` is set and the write completed does it then send the raw reset packet and wait again. |
| `Bdaddr.CsrWriteCompletes` | bdaddr.py:94-142 | (corrected wait) CSR sends the raw write packet. The outcome is success or `CsrWriteFailed`, decided by the first event that yields a verdict. Earlier non-vendor events go to the application, and the slot ends as it started. |
| `Bdaddr.CsrFailureSkipsReset` | bdaddr.py:24-47 | (corrected wait) A failed CSR write raises, sends no reset even with `reset` set, and restores the slot. |
| `Bdaddr.CsrWriteThenReset` | bdaddr.py:24-47 | (corrected wait) Two succeeding replies in a row and `reset` set: the call sends the write packet, then the reset packet, and completes. The slot is restored and only the later events stay unread. |
| `Bdaddr.Host.SendCommand` | bdaddr.py:83-85 | `send_command` appends one packet sent through the command path; nothing else changes. |
| `Bdaddr.Host.SendHciPacket` | bdaddr.py:109 | `send_hci_packet` appends one raw packet; nothing else changes. |
| `Bdaddr.Host.OnHciEvent` | bdaddr.py:127-135 | One event given to the handler in the slot. The application receives it; the interceptor classifies it, forwards it, or settles the future. |
| `Bdaddr.Host.AwaitFuture` | bdaddr.py:142 | The loop that delivers events until the future is done leaves exactly the state `Listen` describes. |
| `Bdaddr.Host.CsrGetResponse` | bdaddr.py:122-142 | The corrected method does what `CsrAwait` says and keeps the slot invariant. |
| `Bdaddr.Host.CsrGetResponseAsWritten` | bdaddr.py:122-142 | After the try/finally the slot equals its value on entry; as written, the call stays suspended. |
| `Bdaddr.Host.AwaitCsrReply` | bdaddr.py:110-119 | `await _csr_get_response(device)` runs the as-written or the corrected method, as `wait` says, with exactly the effect `CsrWait` describes. |
| `Bdaddr.Host.AddressBdaddr` | bdaddr.py:82-91 | `_ericsson_bdaddr`, `_intel_bdaddr`, `_ti_bdaddr`, `_bcm_bdaddr`, `_zeevo_bdaddr` and `_cys_bdaddr` each send their address command. |
| `Bdaddr.Host.StBdaddr` | bdaddr.py:163-167 | `_st_bdaddr` sends the store-in-flash command. |
| `Bdaddr.Host.CsrBdaddr` | bdaddr.py:94-110 | `_csr_bdaddr` sends the write packet built in place, then waits for the CSR reply with the given wait: exactly `Transmit` with that wait. |
| `Bdaddr.Host.CsrReset` | bdaddr.py:113-119 | `_csr_reset` sends the reset packet, then waits for the CSR reply with the given wait: exactly `Transmit` with that wait. |
| `Bdaddr.Host.Bdaddr` | bdaddr.py:11-61 | With the given wait, the method's effect on the host and its outcome are exactly `BdaddrSpec`, and the slot invariant holds after it. |

## Left out

- asyncio: futures, suspension and scheduling.
  - `await future` is modelled as a loop over a queue of controller events given up front.
  - A call still waiting when the queue is empty ends `Suspended`.
  - Timeouts and cancellation do not exist in the code, so they are not modelled.
- `send_command(..., check_result=True)` is taken to succeed at once and reads no event. Its completion status and the error it raises are bumble's.
- `asyncio.Future.set_result` or `set_exception` on a future that is already done raises `asyncio.InvalidStateError`. `Settle` leaves such a future unchanged. With the corrected wait this cannot arise within one call, because the interceptor leaves the slot as soon as its future is done.
- `IndexError` raised by the interceptor on a short vendor event goes up into bumble's event dispatch. The model drops that event and leaves the future pending.
- bumble's `Device`, `Host`, `Address.parse_address`, field serialisation, `HCI_Command.__init__` and the byte order of `bytes(address)` are not part of this model.
  - An address is its six bytes; replacing `__init__` is a flag on the class.
- `hci_command_op_code` is not part of this model. It is taken to compute `(ogf << 10) | ocf`. The `HCI_Reset_Command` op-code 0x0C03 (OGF 0x03, OCF 0x0003) is likewise an assumption.
- `bytearray.fromhex` skipping whitespace between byte pairs: both templates have none.
- `str.upper` on non-ASCII characters: every class name here is ASCII.
- The bare `except:` at bdaddr.py:138-139: assigning the slot cannot fail in the model.
- The `__main__` block (bdaddr.py:241-263): transport, power-on and logging are I/O.
- What the application's own handler does with an event: it is identified by a number, and the events it receives are logged.
- Bdaddr.Host.Bdaddr: requires the application's handler in the slot on entry. A second `bdaddr` call started while a CSR exchange is still pending, nesting two interceptors, is not modelled. `Bdaddr.BdaddrSpec`, `Bdaddr.CsrAwait` and the two `CsrGetResponse` methods have the same precondition.
- CommandRegistry.Registry.DeclareVendorCommands: does not restate each class's Python class name or default `name`.
  - `Registry.Declare` states the Python name and `Registry.HciCommand` the default name. `DefaultNameOfPrivateClass` says what the default name is for these class names.
  - Reasoning about the eight literal class names at once is too costly for the verifier.
  - The eight class statements are modelled as one pass over the declaration table, in source order.

- Bdaddr.CsrCall: states the CSR call with the corrected wait only. `Bdaddr.CsrCallAsWritten` states it as written.
- Bdaddr.CsrWriteCompletes: holds for the corrected wait only; as written the write never completes (`Bdaddr.CsrCallAsWritten`).
- Bdaddr.CsrFailureSkipsReset: holds for the corrected wait only; as written no reply is ever seen, so no reset is sent either.
- Bdaddr.CsrWriteThenReset: holds for the corrected wait only; as written the call stays suspended on the write.
- CommandRegistry.Registry.Declare: does not state the class's `name`.
  - `Registry.HciCommand` states the default name, and `DefaultNameOfPrivateClass` says what it is for a class name like these.
  - With `cls.name == DefaultName(cls.pythonName)` in this contract, `DeclareVendorCommands` runs out of resource even at four times the limit.

## Findings

| source | as written | input that shows it | evidently intended | confidence | as-written member | corrected member |
|---|---|---|---|---|---|---|
| bdaddr.py:137-142 | The `finally` puts the saved `on_hci_event` back before `await future`, so the interceptor is never in the slot while the future waits. | Any CSR write, e.g. company identifier 10, where the controller answers with event 0xFF and parameters `C2 00 00 00 00 00 00 00 00 00 00`. The event reaches the original handler and the future never resolves. | Keep the interceptor installed until the future is done, then restore the saved handler (restore after `await future`, in the `finally`). | medium; not executed | `Bdaddr.CsrAwaitAsWrittenNeverResolves` | `Bdaddr.CsrAwait` |
