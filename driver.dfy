/** The driver object `KMTronicUSB4Relay`: construction after auto-detection,
    the private command sender, the four channels' getter and setter, and close.
    The serial handle is its open flag plus the log of frames written to it. */
module Driver {
  import opened Wrappers
  import opened Protocol
  import opened PortDetection
  import opened BoardModel

  class KMTronicUSB4Relay {
    /** `_port`: the device path the handle was opened on. */
    const port: string
    /** `_serial.is_open`. */
    var isOpen: bool
    /** Every frame written and flushed through `_serial`, oldest first. */
    var sent: seq<seq<Byte>>
    /** `relay_0` .. `relay_3`: the cached `_state` of each channel, by `_channel`. */
    const relays: array<RelayState>

    ghost predicate Valid()
      reads this
    {
      relays.Length == CHANNEL_COUNT
    }

    /** The controller's state as a value of the board model. */
    ghost function Model(): (b: Board)
      reads this, relays
      requires Valid()
      ensures |b.states| == CHANNEL_COUNT
    {
      Board(Link(isOpen, sent), relays[..])
    }

    /** The rest of `__init__` once the handle is open: four channels, each at NC;
        nothing is written to the board. */
    constructor (port: string)
      ensures Valid() && fresh(relays)
      ensures this.port == port
      ensures Model() == Initial()
    {
      this.port := port;
      isOpen := true;
      sent := [];
      relays := new RelayState[CHANNEL_COUNT](_ => NC);
      new;
      assert relays[..] == [NC, NC, NC, NC];
    }

    /** `_send_command(relay, state)`. */
    method SendCommand(relay: int, state: bool) returns (r: Outcome<Error>)
      requires Valid()
      modifies this`sent
      ensures Valid()
      ensures (Model().link, r) == SendFrame(old(Model().link), relay, state)
    {
      if !isOpen {
        return Fail(NotOpen);
      }
      if !(0 <= relay < 256) {
        return Fail(ByteOutOfRange);
      }
      var command := CommandFrame(relay, state);
      sent := sent + [command];
      return Pass;
    }

    /** The `state` getter of channel `channel`: no I/O, no change. */
    function State(channel: ChannelIndex): (s: RelayState)
      reads this, relays
      requires Valid()
      ensures s == Model().states[channel]
    {
      relays[channel]
    }

    /** The `state` setter of channel `channel`. */
    method SetState(channel: ChannelIndex, value: RelayState) returns (r: Outcome<Error>)
      requires Valid()
      modifies this`sent, relays
      ensures Valid()
      ensures (Model(), r) == SetChannel(old(Model()), channel, value)
    {
      r := SendCommand(channel + 1, value.Value());
      if r.Pass? {
        relays[channel] := value;
      }
    }

    /** `close`. */
    method Close()
      requires Valid()
      modifies this`isOpen
      ensures Valid()
      ensures Model() == CloseBoard(old(Model()))
    {
      if isOpen {
        isOpen := false;
      }
    }

    /** `__exit__`: leaving a `with` block closes the controller. */
    method Exit()
      requires Valid()
      modifies this`isOpen
      ensures Valid()
      ensures Model() == CloseBoard(old(Model()))
    {
      Close();
    }
  }

  /** `KMTronicUSB4Relay()`: detect the port, then open it, then create the
      channels. `ports` is what the system enumerates; `openSucceeds` is whether
      the serial library manages to open the detected port. */
  method Connect(ports: seq<PortInfo>, openSucceeds: bool) returns (r: Result<KMTronicUSB4Relay, Error>)
    ensures DetectPort(ports).None? ==> r == Failure(DeviceNotDetected)
    ensures DetectPort(ports).Some? && !openSucceeds ==>
      r == Failure(ConnectionFailed(DetectPort(ports).value))
    ensures DetectPort(ports).Some? && openSucceeds ==>
      r.Success? && fresh(r.value) && fresh(r.value.relays) && r.value.Valid() &&
      r.value.port == DetectPort(ports).value && r.value.Model() == Initial()
  {
    var port := AutoDetectPort(ports);
    if port.None? {
      return Failure(DeviceNotDetected);
    }
    if !openSucceeds {
      return Failure(ConnectionFailed(port.value));
    }
    var controller := new KMTronicUSB4Relay(port.value);
    return Success(controller);
  }

  /** A session: set a channel, read it back, close twice, try again. The reads
      see exactly what was set, the second close writes nothing, and the set
      after close fails without touching the cached state. */
  method Session(controller: KMTronicUSB4Relay, channel: ChannelIndex)
    requires controller.Valid() && controller.Model() == Initial()
    modifies controller, controller.relays
    ensures controller.Valid()
    ensures controller.sent == [[0xFF, channel + 1, 0x01]]
    ensures !controller.isOpen && controller.State(channel) == NO
    ensures forall j: ChannelIndex :: j != channel ==> controller.State(j) == NC
  {
    var r := controller.SetState(channel, NO);
    assert r == Pass && controller.State(channel) == NO;
    controller.Close();
    controller.Exit();
    r := controller.SetState(channel, NC);
    assert r == Fail(NotOpen);
  }
}
