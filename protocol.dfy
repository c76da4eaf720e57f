/** The wire protocol of the KMTronic USB 4 relay board: relay states and the
    fixed three-byte command frame. */
module Protocol {
  import opened Wrappers

  /** One byte on the wire. Python's `bytes([...])` refuses anything outside 0..255. */
  type Byte = b: int | 0 <= b < 256

  /** `RelayState`: NO is the energized position (member value True), NC the
      de-energized rest position (member value False). */
  datatype RelayState = NO | NC {
    /** The boolean carried as the enum member's value. */
    function Value(): (v: bool)
      ensures v <==> this == NO
    {
      match this
      case NO => true
      case NC => false
    }
  }

  /** The enum member whose value is `v`, i.e. `RelayState(v)`. */
  function StateOfValue(v: bool): (s: RelayState)
    ensures s.Value() == v
  {
    if v then NO else NC
  }

  /** `CMD_PREFIX`: the first byte of every command. */
  const CMD_PREFIX: Byte := 0xFF

  /** The command frame `[CMD_PREFIX, relay, 0x01 if state else 0x00]`. */
  function CommandFrame(relay: Byte, state: bool): (f: seq<Byte>)
    ensures |f| == 3
    ensures ParseFrame(f) == Some(Command(relay, state))
  {
    [CMD_PREFIX, relay, if state then 0x01 else 0x00]
  }

  /** A decoded command: the one-based relay number and the requested value. */
  datatype Command = Command(relay: Byte, state: bool)

  /** How a frame laid out as above reads back: three bytes, the prefix, a relay
      number and a state byte that is 0x00 or 0x01. */
  function ParseFrame(f: seq<Byte>): Option<Command>
  {
    if |f| == 3 && f[0] == CMD_PREFIX && (f[2] == 0x00 || f[2] == 0x01)
    then Some(Command(f[1], f[2] == 0x01))
    else None
  }

  /** Every built frame reads back as the command it was built from. */
  lemma ParseCommandFrame(relay: Byte, state: bool)
    ensures ParseFrame(CommandFrame(relay, state)) == Some(Command(relay, state))
  {
  }

  /** Every frame that reads back as a command is the frame built from it, so the
      encoding is onto the well-formed frames and the two are inverses. */
  lemma CommandFrameOfParse(f: seq<Byte>)
    requires ParseFrame(f).Some?
    ensures CommandFrame(ParseFrame(f).value.relay, ParseFrame(f).value.state) == f
  {
  }

  /** Distinct commands give distinct frames. */
  lemma CommandFrameInjective(r1: Byte, s1: bool, r2: Byte, s2: bool)
    requires CommandFrame(r1, s1) == CommandFrame(r2, s2)
    ensures r1 == r2 && s1 == s2
  {
  }
}
