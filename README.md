# KMTronic USB 4 relay driver — Dafny model

A model of the Python driver `KMTronicUSB4Relay` for the KMTronic USB 4 RELAY
v1.0 board (`kmtronic_usb_relay.py`). The driver finds the board's serial port
among the enumerated ports, opens it, and drives four relay channels by
writing three-byte commands `[0xFF, relay number, 0x01 | 0x00]`. Each channel
caches the state it was last set to; nothing is ever read back from the board.

Modules (one file each):

- `Wrappers` (`wrappers.dfy`): `Option`, `Result`, `Outcome`.
- `Protocol` (`protocol.dfy`): `RelayState` (NO = energized = `True`, NC =
  rest = `False`), the byte type, `CMD_PREFIX`, the frame builder and its
  inverse `ParseFrame`.
- `PortDetection` (`port_detection.dfy`): `_auto_detect_port`, as a
  recursive specification (`FirstAccepted`, `DetectPort`) and as the source's
  one-pass loop (`AutoDetectPort`). The enumerated ports are an input.
- `BoardModel` (`board_model.dfy`): the controller's state as a value (the
  serial handle as an open flag plus the log of frames written, and the four
  cached channel states), one function per operation, the invariant the
  driver keeps, and the properties of any sequence of calls.
- `Driver` (`driver.dfy`): the class `KMTronicUSB4Relay`, whose methods
  update its fields in place and are proved to follow `BoardModel`; `Connect`
  is the constructor's detect-then-open-then-create sequence.

The four `_Relay` objects are an array of cached states owned by the
controller, indexed by the channel's `_channel` (0..3); the setter of channel
`i` is `SetState(i, value)` and the getter is `State(i)`. Python exceptions are
`Error` values: `DeviceNotDetected` (the `ValueError` of line 81),
`ConnectionFailed` (line 95), `NotOpen` (line 129) and `ByteOutOfRange` (the
`ValueError` that `bytes()` raises for a relay number outside 0..255, which
only a direct call of `_send_command` can reach).

Port detection follows the code: both tests are applied to each port in turn
inside one loop, so a port whose description names a bridge chip wins over a
port with the board's own VID/PID that is enumerated after it, although the
comment at line 112 speaks of checking the signature "first"
(`EarlierBridgeBeatsLaterSignature`).

## Model

| member | source | states |
|---|---|---|
| `Protocol.RelayState.Value` | kmtronic_usb_relay.py:19-22 | a state's boolean value is true exactly for NO |
| `Protocol.StateOfValue` | kmtronic_usb_relay.py:19-22 | `RelayState(v)` is the member whose value is `v` |
| `Protocol.CommandFrame` | kmtronic_usb_relay.py:131-132 | the frame built for (relay, state) is three bytes long and reads back as exactly that relay number and state |
| `Protocol.ParseCommandFrame` | kmtronic_usb_relay.py:131-132 | every built frame reads back as the relay number and state it was built from |
| `Protocol.CommandFrameOfParse` | kmtronic_usb_relay.py:131-132 | every frame that reads as a command is the frame built from that command (the encoding and the parse are inverses) |
| `Protocol.CommandFrameInjective` | kmtronic_usb_relay.py:131-132 | different (relay, state) pairs never give the same frame |
| `PortDetection.ToLower` | kmtronic_usb_relay.py:116 | lower-casing keeps the length and maps each character on its own |
| `PortDetection.FirstAccepted` | kmtronic_usb_relay.py:110-118 | the result is the position of an accepted port with no accepted port before it, or none when no port passes either test |
| `PortDetection.DetectPort` | kmtronic_usb_relay.py:103-118 | the detected device is none exactly when no port passes either test, and otherwise the device of the first port in enumeration order that passes one |
| `PortDetection.AutoDetectPort` | kmtronic_usb_relay.py:103-118 | the one-pass loop returns exactly the device of the first accepted port, or none |
| `PortDetection.NotDetectedIff` | kmtronic_usb_relay.py:110-118 | detection reports none if and only if no port has the VID/PID 0x1337/0x0088 or a bridge-chip description |
| `PortDetection.DetectsFirstAccepted` | kmtronic_usb_relay.py:111-117 | the first port in enumeration order that passes either test is the one returned |
| `PortDetection.SignatureAmongUnrelated` | kmtronic_usb_relay.py:112-114 | a port with the board's VID/PID among ports passing neither test is found wherever it stands |
| `PortDetection.EarlierBridgeBeatsLaterSignature` | kmtronic_usb_relay.py:111-117 | a bridge-description port enumerated before a VID/PID port is returned instead of it |
| `PortDetection.ToLowerIdempotent` | kmtronic_usb_relay.py:116 | lower-casing twice equals lower-casing once |
| `PortDetection.BridgeNameAnyCase` | kmtronic_usb_relay.py:115-117 | a description containing any capitalisation of "ftdi", "ch340" or "usb serial" is accepted |
| `PortDetection.AcceptedIgnoresCase` | kmtronic_usb_relay.py:116 | acceptance does not change when the description is lower-cased first |
| `BoardModel.Initial` | kmtronic_usb_relay.py:48-101 | a new controller has an open handle, has written nothing, and has all four channels at NC |
| `BoardModel.SendFrame` | kmtronic_usb_relay.py:120-134 | a send succeeds iff the handle is open and the relay number is a byte; a closed handle gives NotOpen; a failure writes nothing; an open handle with a relay number outside 0..255 gives ByteOutOfRange (the `bytes()` ValueError, not the ConnectionError of a closed handle); a failure writes nothing; a success appends exactly one frame reading back as (relay, state) |
| `BoardModel.SetChannel` | kmtronic_usb_relay.py:65-69 | setting channel i succeeds iff the handle is open; it then writes exactly `[0xFF, i+1, 0x01 for NO / 0x00 for NC]`, caches the value for i and leaves other channels alone; on failure (NotOpen) nothing changes |
| `BoardModel.CloseBoard` | kmtronic_usb_relay.py:136-139 | after close the handle is closed and no frame or cached state changed |
| `BoardModel.CloseIdempotent` | kmtronic_usb_relay.py:136-139 | closing a second time is a no-op |
| `BoardModel.SetAfterCloseFails` | kmtronic_usb_relay.py:128-139 | after close every set fails with NotOpen and changes nothing |
| `BoardModel.InitialInvariant` | kmtronic_usb_relay.py:45-48 | the invariant holds of a freshly constructed controller |
| `BoardModel.SetChannelPreservesInvariant` | kmtronic_usb_relay.py:65-69 | every set keeps each frame addressed to relay 1..4 and each cached state equal to the last state sent for that channel |
| `BoardModel.RunPreservesInvariant` | kmtronic_usb_relay.py:65-139 | any sequence of sets and closes keeps the invariant |
| `BoardModel.ReachableFramesAndStates` | kmtronic_usb_relay.py:65-134 | after any sequence of calls from construction, every frame written is `[0xFF, n, 0x00 or 0x01]` with n in 1..4, and each getter returns the state last sent for that channel (NC if none) |
| `BoardModel.ClosedIsInert` | kmtronic_usb_relay.py:128-139 | once closed, no sequence of calls writes a frame, reopens the handle or changes a cached state |
| `Driver.KMTronicUSB4Relay.constructor` | kmtronic_usb_relay.py:97-101 | the new controller is the initial board on the given port: open, nothing written, four channels at NC |
| `Driver.KMTronicUSB4Relay.SendCommand` | kmtronic_usb_relay.py:120-134 | the handle and outcome after the call are those `SendFrame` gives for the handle before it |
| `Driver.KMTronicUSB4Relay.State` | kmtronic_usb_relay.py:50-63 | the getter returns the channel's cached state and, being a function, does no I/O and changes nothing |
| `Driver.KMTronicUSB4Relay.SetState` | kmtronic_usb_relay.py:65-69 | the controller after the call is `SetChannel` of the controller before it: the frame is sent first and the state cached only when the send returned |
| `Driver.KMTronicUSB4Relay.Close` | kmtronic_usb_relay.py:136-139 | the controller after the call is `CloseBoard` of the one before it |
| `Driver.KMTronicUSB4Relay.Exit` | kmtronic_usb_relay.py:149-151 | leaving a `with` block does exactly what close does |
| `Driver.Connect` | kmtronic_usb_relay.py:71-101 | no detected port gives DeviceNotDetected and no controller; a detected port that cannot be opened gives ConnectionFailed; otherwise a fresh controller on the detected port in the initial state |
| `Driver.Session` | kmtronic_usb_relay.py:128-151 | a set then read on an open controller sees the value set and writes one frame; closing twice and setting again writes nothing more and changes no cached state; the other three channels stay at NC |

## Left out

- Opening the port: the serial parameters 9600-8-N-1 with a 1-second timeout and the 0.1 s pause after opening (lines 85-93) belong to the serial library and the clock; whether opening succeeds is the parameter `openSucceeds` of `Connect`.
- Enumerating ports (`list_ports.comports()`, line 110) is replaced by the input list of `PortInfo` records.
- Write and flush failures or timeouts inside the serial library (lines 133-134): a write on an open handle always succeeds in the model.
- `__del__` (lines 141-143) runs at the garbage collector's discretion; `close` covers its logic.
- `__enter__` (lines 145-147) only returns the controller itself.
- The `__main__` demonstration block (lines 154-194) only sequences calls and prints.
- `kmtronic_relay/__init__.py` only re-exports `KMTronicUSB4Relay` and `RelayState` from a `relay` module that is not part of this model.
- `example.py` imports a different class, `KMTronicUSBRelay`, and calls `turn_on`, `turn_all_on`, `toggle`, an explicit port argument and a port listing; none of these has an implementation in `kmtronic_usb_relay.py`, so none is modelled, and there is no index validation beyond the four fixed channels.
- `PortDetection.ToLower`: lower-cases ASCII letters only, whereas `str.lower()` also maps other Unicode letters.
- The `_Relay` objects with their back-reference to the controller are modelled as an array of states owned by the controller, so aliasing of channel objects is not captured.
