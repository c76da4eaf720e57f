/** The controller's observable state as a value: the serial handle (open or
    closed, and every frame written to it) and the last-commanded state of each
    of the four channels. The class in module Driver is proved to follow these
    functions step by step; the properties of the driver are proved here. */
module BoardModel {
  import opened Wrappers
  import opened Protocol

  /** The board has four relays: channels 0..3, numbered 1..4 on the wire. */
  const CHANNEL_COUNT := 4

  /** A zero-based channel index, `_Relay._channel`. */
  type ChannelIndex = i: nat | i < CHANNEL_COUNT

  /** The driver's exceptions. */
  datatype Error =
    | DeviceNotDetected          // ValueError: auto-detection found no port
    | ConnectionFailed(port: string)  // ConnectionError: the port could not be opened
    | NotOpen                    // ConnectionError: command sent on a closed handle
    | ByteOutOfRange             // ValueError from bytes(): relay number outside 0..255

  /** The serial handle: whether it is open, and every frame written and
      flushed through it, oldest first. */
  datatype Link = Link(isOpen: bool, written: seq<seq<Byte>>)

  /** The controller: its handle and the cached state of each channel. */
  datatype Board = Board(link: Link, states: seq<RelayState>)

  /** A board as construction leaves it: handle open, nothing written, every
      channel at NC. */
  function Initial(): (b: Board)
    ensures b.link.isOpen && b.link.written == []
    ensures |b.states| == CHANNEL_COUNT
    ensures forall i :: 0 <= i < CHANNEL_COUNT ==> b.states[i] == NC
  {
    Board(Link(true, []), [NC, NC, NC, NC])
  }

  /** `_send_command(relay, state)`: refuse a closed handle, then build the frame
      (which refuses a relay number that is not a byte), then write it. */
  function SendFrame(link: Link, relay: int, state: bool): (r: (Link, Outcome<Error>))
    ensures r.1.Pass? <==> link.isOpen && 0 <= relay < 256
    ensures !link.isOpen ==> r.1 == Fail(NotOpen)
    ensures link.isOpen && !(0 <= relay < 256) ==> r.1 == Fail(ByteOutOfRange)
    ensures r.1.Fail? ==> r.0 == link
    ensures r.1.Pass? ==>
      r.0.isOpen && |r.0.written| == |link.written| + 1 &&
      r.0.written[..|link.written|] == link.written &&
      ParseFrame(r.0.written[|link.written|]) == Some(Command(relay, state))
  {
    if !link.isOpen then (link, Fail(NotOpen))
    else if !(0 <= relay < 256) then (link, Fail(ByteOutOfRange))
    else
      ParseCommandFrame(relay, state);
      (link.(written := link.written + [CommandFrame(relay, state)]), Pass)
  }

  /** The `state` setter of channel `channel`: send relay number `channel + 1`
      with the value's boolean, and only once that returned, cache the value. */
  function SetChannel(b: Board, channel: ChannelIndex, value: RelayState): (r: (Board, Outcome<Error>))
    requires |b.states| == CHANNEL_COUNT
    ensures |r.0.states| == CHANNEL_COUNT
    ensures r.1.Pass? <==> b.link.isOpen
    ensures r.1.Fail? ==> r.1 == Fail(NotOpen) && r.0 == b
    ensures r.1.Pass? ==>
      r.0.link.isOpen &&
      r.0.link.written == b.link.written + [[0xFF, channel + 1, if value == NO then 0x01 else 0x00]]
    ensures r.1.Pass? ==>
      r.0.states[channel] == value &&
      forall j :: 0 <= j < CHANNEL_COUNT && j != channel ==> r.0.states[j] == b.states[j]
  {
    var (link', outcome) := SendFrame(b.link, channel + 1, value.Value());
    if outcome.Pass? then (Board(link', b.states[channel := value]), outcome)
    else (Board(link', b.states), outcome)
  }

  /** `close`: close the handle if it is open; nothing else changes. */
  function CloseBoard(b: Board): (r: Board)
    ensures !r.link.isOpen
    ensures r.link.written == b.link.written && r.states == b.states
  {
    if b.link.isOpen then b.(link := b.link.(isOpen := false)) else b
  }

  /** Closing twice is the same as closing once. */
  lemma CloseIdempotent(b: Board)
    ensures CloseBoard(CloseBoard(b)) == CloseBoard(b)
  {
  }

  /** After `close`, setting any channel fails with NotOpen and changes nothing. */
  lemma SetAfterCloseFails(b: Board, channel: ChannelIndex, value: RelayState)
    requires |b.states| == CHANNEL_COUNT
    ensures SetChannel(CloseBoard(b), channel, value) == (CloseBoard(b), Fail(NotOpen))
  {
  }

  /** One call a client makes on the controller. */
  datatype Op = Set(channel: ChannelIndex, value: RelayState) | Close

  function Step(b: Board, op: Op): (r: Board)
    requires |b.states| == CHANNEL_COUNT
    ensures |r.states| == CHANNEL_COUNT
  {
    match op
    case Set(channel, value) => SetChannel(b, channel, value).0
    case Close => CloseBoard(b)
  }

  /** The board after a sequence of calls, a failing set being a step that
      changes nothing. */
  function Run(b: Board, ops: seq<Op>): (r: Board)
    requires |b.states| == CHANNEL_COUNT
    ensures |r.states| == CHANNEL_COUNT
    decreases |ops|
  {
    if ops == [] then b else Run(Step(b, ops[0]), ops[1..])
  }

  /** The state named by the last frame written for `relay`, or NC (the assumed
      rest state) when none was. */
  function LastCommanded(frames: seq<seq<Byte>>, relay: int): RelayState
    decreases |frames|
  {
    if frames == [] then NC
    else
      var cmd := ParseFrame(frames[|frames| - 1]);
      if cmd.Some? && cmd.value.relay == relay then StateOfValue(cmd.value.state)
      else LastCommanded(frames[..|frames| - 1], relay)
  }

  /** A well-formed command frame for one of the board's relays. */
  predicate AddressesRelay(f: seq<Byte>)
  {
    ParseFrame(f).Some? && 1 <= ParseFrame(f).value.relay <= CHANNEL_COUNT
  }

  /** What the driver keeps true: every frame on the wire commands one of the
      four relays, and each channel's cached state is what was last sent for it. */
  ghost predicate Invariant(b: Board)
  {
    |b.states| == CHANNEL_COUNT &&
    (forall k :: 0 <= k < |b.link.written| ==> AddressesRelay(b.link.written[k])) &&
    (forall i :: 0 <= i < CHANNEL_COUNT ==> b.states[i] == LastCommanded(b.link.written, i + 1))
  }

  lemma InitialInvariant()
    ensures Invariant(Initial())
  {
  }

  lemma SetChannelPreservesInvariant(b: Board, channel: ChannelIndex, value: RelayState)
    requires Invariant(b)
    ensures Invariant(SetChannel(b, channel, value).0)
  {
  }

  lemma {:induction false} RunPreservesInvariant(b: Board, ops: seq<Op>)
    requires Invariant(b)
    ensures Invariant(Run(b, ops))
    decreases |ops|
  {
    if ops != [] {
      if ops[0].Set? {
        SetChannelPreservesInvariant(b, ops[0].channel, ops[0].value);
      }
      RunPreservesInvariant(Step(b, ops[0]), ops[1..]);
    }
  }

  /** In every reachable state, every frame ever sent is `[0xFF, n, s]` with the
      relay number n in 1..4 and s either 0x00 or 0x01, and each channel's getter
      returns exactly the state last sent for it (NC if never). */
  lemma {:induction false} ReachableFramesAndStates(ops: seq<Op>)
    ensures var b := Run(Initial(), ops);
      (forall k :: 0 <= k < |b.link.written| ==>
         var f := b.link.written[k];
         |f| == 3 && f[0] == 0xFF && 1 <= f[1] <= 4 && (f[2] == 0x00 || f[2] == 0x01)) &&
      (forall i :: 0 <= i < CHANNEL_COUNT ==> b.states[i] == LastCommanded(b.link.written, i + 1))
  {
    InitialInvariant();
    RunPreservesInvariant(Initial(), ops);
    var b := Run(Initial(), ops);
    forall k | 0 <= k < |b.link.written|
      ensures var f := b.link.written[k];
        |f| == 3 && f[0] == 0xFF && 1 <= f[1] <= 4 && (f[2] == 0x00 || f[2] == 0x01)
    {
      assert AddressesRelay(b.link.written[k]);
    }
  }

  /** A closed controller is inert: no later call writes a frame, reopens the
      handle or changes a cached state. */
  lemma {:induction false} ClosedIsInert(b: Board, ops: seq<Op>)
    requires |b.states| == CHANNEL_COUNT && !b.link.isOpen
    ensures Run(b, ops) == b
    decreases |ops|
  {
    if ops != [] {
      assert Step(b, ops[0]) == b;
      ClosedIsInert(b, ops[1..]);
    }
  }
}
