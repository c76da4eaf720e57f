/** Auto-detection of the relay board's serial port (`_auto_detect_port`).
    The enumerated ports are an input: listing them is the serial library's job. */
module PortDetection {
  import opened Wrappers

  /** One enumerated serial port. `vid`/`pid` are absent for ports that are not
      USB devices; `description` is the human-readable text the system reports. */
  datatype PortInfo = PortInfo(device: string, vid: Option<int>, pid: Option<int>, description: string)

  /** USB signature of the KMTronic board's FTDI chip with its custom IDs. */
  const KMTRONIC_VID := 0x1337
  const KMTRONIC_PID := 0x0088

  /** Lower-case names of common USB-serial bridge chips, searched for in descriptions. */
  const BRIDGE_NAMES: seq<string> := ["ftdi", "ch340", "usb serial"]

  /** Lower-casing of one character, on the ASCII letters. */
  function LowerChar(c: char): char
  {
    if 'A' <= c <= 'Z' then (c as int + 32) as char else c
  }

  /** `str.lower()`, on ASCII letters. */
  function ToLower(s: string): (r: string)
    ensures |r| == |s|
    ensures forall i :: 0 <= i < |s| ==> r[i] == LowerChar(s[i])
  {
    if s == [] then [] else [LowerChar(s[0])] + ToLower(s[1..])
  }

  /** `part` occurs in `s` starting at position `i`. */
  predicate OccursAt(s: string, part: string, i: int)
  {
    0 <= i <= |s| - |part| && s[i..i + |part|] == part
  }

  /** Python's substring test `part in s`. */
  predicate Contains(s: string, part: string)
  {
    exists i | 0 <= i <= |s| - |part| :: OccursAt(s, part, i)
  }

  /** The port carries the board's own USB signature, the first test of `_auto_detect_port`. */
  predicate HasSignature(p: PortInfo)
  {
    p.vid == Some(KMTRONIC_VID) && p.pid == Some(KMTRONIC_PID)
  }

  /** The lower-cased description names a known bridge chip, the fallback test of `_auto_detect_port`. */
  predicate HasBridgeDescription(p: PortInfo)
  {
    exists name | name in BRIDGE_NAMES :: Contains(ToLower(p.description), name)
  }

  /** A port the detection loop returns as soon as it reaches it. */
  predicate Accepted(p: PortInfo)
  {
    HasSignature(p) || HasBridgeDescription(p)
  }

  /** Port `k` is accepted and no port before it is. */
  ghost predicate IsFirstAccepted(ports: seq<PortInfo>, k: int)
  {
    0 <= k < |ports| && Accepted(ports[k]) &&
    forall j :: 0 <= j < k ==> !Accepted(ports[j])
  }

  /** The position of the first accepted port, in enumeration order. */
  function FirstAccepted(ports: seq<PortInfo>): (k: Option<nat>)
    ensures k.Some? ==> IsFirstAccepted(ports, k.value)
    ensures k.None? ==> forall j :: 0 <= j < |ports| ==> !Accepted(ports[j])
  {
    if |ports| == 0 then None
    else if Accepted(ports[0]) then Some(0)
    else match FirstAccepted(ports[1..])
      case None => None
      case Some(k) => Some(k + 1)
  }

  /** The device the detection returns: that of the first accepted port, or none. */
  function DetectPort(ports: seq<PortInfo>): (r: Option<string>)
    ensures r.None? <==> forall j :: 0 <= j < |ports| ==> !Accepted(ports[j])
    ensures r.Some? ==> exists k :: IsFirstAccepted(ports, k) && r.value == ports[k].device
  {
    match FirstAccepted(ports)
    case None => None
    case Some(k) => Some(ports[k].device)
  }

  /** `_auto_detect_port`: one pass over the ports in order, testing the signature
      and then the description of each port before moving to the next. */
  method AutoDetectPort(ports: seq<PortInfo>) returns (device: Option<string>)
    ensures device == DetectPort(ports)
  {
    var i := 0;
    while i < |ports|
      invariant 0 <= i <= |ports|
      invariant forall j :: 0 <= j < i ==> !Accepted(ports[j])
    {
      var port := ports[i];
      if port.vid == Some(KMTRONIC_VID) && port.pid == Some(KMTRONIC_PID) {
        return Some(port.device);
      }
      if exists name | name in BRIDGE_NAMES :: Contains(ToLower(port.description), name) {
        return Some(port.device);
      }
      i := i + 1;
    }
    return None;
  }

  /** Detection reports nothing exactly when no port passes either test. */
  lemma NotDetectedIff(ports: seq<PortInfo>)
    ensures DetectPort(ports).None? <==> forall j :: 0 <= j < |ports| ==> !Accepted(ports[j])
  {
  }

  /** Detection returns the device of the first port passing either test. */
  lemma DetectsFirstAccepted(ports: seq<PortInfo>, k: int)
    requires IsFirstAccepted(ports, k)
    ensures DetectPort(ports) == Some(ports[k].device)
  {
  }

  /** A port with the board's signature among ports that pass neither test is
      found wherever it stands in the list. */
  lemma SignatureAmongUnrelated(ports: seq<PortInfo>, k: int)
    requires 0 <= k < |ports| && HasSignature(ports[k])
    requires forall j :: 0 <= j < |ports| && j != k ==> !Accepted(ports[j])
    ensures DetectPort(ports) == Some(ports[k].device)
  {
  }

  /** Both tests are applied port by port, not in two passes: a bridge-chip port
      enumerated before a port with the board's signature wins over it. */
  lemma EarlierBridgeBeatsLaterSignature(ports: seq<PortInfo>, i: int, k: int)
    requires 0 <= i < k < |ports|
    requires HasBridgeDescription(ports[i]) && HasSignature(ports[k])
    requires forall j :: 0 <= j < i ==> !Accepted(ports[j])
    requires ports[i].device != ports[k].device
    ensures DetectPort(ports) == Some(ports[i].device)
    ensures DetectPort(ports) != Some(ports[k].device)
  {
  }

  /** Lower-casing a lower-cased string changes nothing. */
  lemma ToLowerIdempotent(s: string)
    ensures ToLower(ToLower(s)) == ToLower(s)
  {
  }

  /** The description test is case-insensitive: a description containing any
      upper/lower-case spelling of a bridge name (such as "FTDI" or "USB Serial")
      is accepted. */
  lemma BridgeNameAnyCase(p: PortInfo, name: string)
    requires ToLower(name) in BRIDGE_NAMES
    requires Contains(p.description, name)
    ensures HasBridgeDescription(p)
  {
    var d := p.description;
    var i :| 0 <= i <= |d| - |name| && OccursAt(d, name, i);
    var lowered, lowName := ToLower(d), ToLower(name);
    assert lowered[i..i + |name|] == lowName by {
      forall m | 0 <= m < |name|
        ensures lowered[i + m] == lowName[m]
      {
        assert d[i..i + |name|][m] == name[m];
      }
    }
    assert OccursAt(lowered, lowName, i);
    assert Contains(lowered, lowName);
  }

  /** Only the description's lower-cased form matters to the test. */
  lemma AcceptedIgnoresCase(p: PortInfo)
    ensures Accepted(p) == Accepted(p.(description := ToLower(p.description)))
  {
    ToLowerIdempotent(p.description);
  }
}
