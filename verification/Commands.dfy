/** Command packets: the encoders of the ground station and the parser of the flight software. */
module Commands {
  import opened Ccsds
  import opened Options
  import opened Words

  const GNC: Word := 201

  const SLEW_TO_NADIR: Byte := 0x01
  const SET_GAINS: Byte := 0x03
  const POINT_TARGET: Byte := 0x04

  datatype Command =
    | SlewToNadir
    | SlewToTarget(w: Double, x: Double, y: Double, z: Double)
    | SetPidGains(kp: Double, ki: Double, kd: Double, nominal: bool)

  // ---------- Encoding ----------

  function FunctionCode(c: Command): Byte {
    match c
    case SlewToNadir => SLEW_TO_NADIR
    case SlewToTarget(_, _, _, _) => POINT_TARGET
    case SetPidGains(_, _, _, _) => SET_GAINS
  }

  /** Parameters in big-endian order; the quaternion travels with its scalar part last. */
  function Payload(c: Command): seq<Byte> {
    match c
    case SlewToNadir => []
    case SlewToTarget(w, x, y, z) => BigEndian([x, y, z, w])
    case SetPidGains(kp, ki, kd, nominal) => BigEndian([kp, ki, kd]) + [if nominal then 1 else 0]
  }

  function PayloadSize(c: Command): nat {
    match c
    case SlewToNadir => 0
    case SlewToTarget(_, _, _, _) => 32
    case SetPidGains(_, _, _, _) => 25
  }

  function HeaderOf(c: Command, count: Word): Header {
    Sent(1, true, GNC, count, FromNat(6 + 1 + PayloadSize(c)))
  }

  function Encode(c: Command, count: Word): (packet: seq<Byte>)
    ensures |packet| == 7 + PayloadSize(c)
  {
    Image(NetworkOrder(HeaderOf(c, count))) + [FunctionCode(c)] + Payload(c)
  }

  // ---------- Parsing ----------

  function ParseBody(code: Byte, body: seq<Byte>): Option<Command> {
    if code == SLEW_TO_NADIR then Some(SlewToNadir)
    else if code == SET_GAINS then
      if |body| < 25 then None
      else Some(SetPidGains(DoubleAt(body, 0), DoubleAt(body, 8), DoubleAt(body, 16), body[24] != 0))
    else if code == POINT_TARGET then
      if |body| < 32 then None
      else Some(SlewToTarget(DoubleAt(body, 24), DoubleAt(body, 0), DoubleAt(body, 8), DoubleAt(body, 16)))
    else None
  }

  function Parse(raw: seq<Byte>): Option<Command> {
    if |raw| < 6 then None
    else if TypeOf(Received(raw).packetId) != 1 then None
    else if |raw| < 7 then None
    else if ApidOf(Received(raw).packetId) != GNC then None
    else ParseBody(raw[6], raw[7..])
  }

  // ---------- Round trips ----------

  lemma GncIsAnApid()
    ensures ApidOf(GNC) == GNC && Cut(1, 1) == 1
  {
  }

  /** What the receiver finds in the header of an encoded command. */
  lemma EncodedHeader(c: Command, count: Word, extra: seq<Byte>)
    ensures var h := Received(Encode(c, count) + extra);
            && FieldsOf(h) == Fields(0, 1, 1, GNC, 3, CountOf(count), h.packetLength)
            && Value(h.packetLength) == |Encode(c, count)| - 1
  {
    hide Sent, NetworkOrder, Image, Received, VersionOf, TypeOf, SecondaryOf, ApidOf, FlagsOf, CountOf, Cut, FromNat;
    hide Value, Payload;
    var h, total := HeaderOf(c, count), 7 + PayloadSize(c);
    var rest := [FunctionCode(c)] + Payload(c) + extra;
    assert Encode(c, count) + extra == Image(NetworkOrder(h)) + rest;
    ReceivedImage(h, rest);
    SentFields(1, true, GNC, count, FromNat(total));
    StoredLength(1, true, GNC, count, total);
    GncIsAnApid();
  }

  lemma BodyRoundTrip(c: Command, extra: seq<Byte>)
    ensures ParseBody(FunctionCode(c), Payload(c) + extra) == Some(c)
  {
    hide DoubleAt, BigEndian;
    match c
    case SlewToNadir =>
    case SlewToTarget(w, x, y, z) =>
      ReadFront([x, y, z, w], extra, 0);
      ReadFront([x, y, z, w], extra, 1);
      ReadFront([x, y, z, w], extra, 2);
      ReadFront([x, y, z, w], extra, 3);
    case SetPidGains(kp, ki, kd, nominal) =>
      var rest := [if nominal then 1 else 0] + extra;
      assert Payload(c) + extra == BigEndian([kp, ki, kd]) + rest;
      ReadFront([kp, ki, kd], rest, 0);
      ReadFront([kp, ki, kd], rest, 1);
      ReadFront([kp, ki, kd], rest, 2);
  }

  /** The parser inverts the encoder for every command, sequence count and trailing bytes. */
  lemma ParseInvertsEncode(c: Command, count: Word, extra: seq<Byte>)
    ensures Parse(Encode(c, count) + extra) == Some(c)
  {
    hide HeaderOf, NetworkOrder, Image, Received, VersionOf, TypeOf, SecondaryOf, ApidOf, FlagsOf, CountOf, Value;
    hide Payload, ParseBody;
    var raw := Encode(c, count) + extra;
    EncodedHeader(c, count, extra);
    BodyRoundTrip(c, extra);
    assert raw[6] == FunctionCode(c);
    assert raw[7..] == Payload(c) + extra;
  }

  // ---------- Numbered commands ----------

  /** The station's count after a list of commands. */
  function CountAfter(commands: seq<Command>): Word
    decreases |commands|
  {
    if commands == [] then 0 else Next(CountAfter(commands[..|commands| - 1]))
  }

  /** The packet sent for the last of a list of commands. */
  function LastPacket(commands: seq<Command>): seq<Byte>
    requires commands != []
  {
    Encode(commands[|commands| - 1], CountAfter(commands[..|commands| - 1]))
  }

  lemma {:induction false} CountAfterCounts(commands: seq<Command>)
    ensures Value(CountAfter(commands)) == |commands| % 65536
    decreases |commands|
  {
    hide Value, Next;
    if commands == [] {
      ValueOfZero();
    } else {
      CountAfterCounts(commands[..|commands| - 1]);
      NextCount(CountAfter(commands[..|commands| - 1]), |commands| - 1);
    }
  }

  /** In any mixture of commands the k-th packet (from 0) is read as the k-th command and carries the
      sequence count k mod 16384, although the counter wraps at 65536. */
  lemma CommandCountIsIndex(commands: seq<Command>, extra: seq<Byte>)
    requires commands != []
    ensures var packet, k := LastPacket(commands) + extra, |commands| - 1;
            && Parse(packet) == Some(commands[k])
            && Value(CountOf(Received(packet).sequenceCtrl)) == k % 16384
  {
    hide Encode, Parse, Received, Value, ApidOf, CountOf, TypeOf, VersionOf, SecondaryOf, FlagsOf, CountAfter;
    var k := |commands| - 1;
    var count := CountAfter(commands[..k]);
    ParseInvertsEncode(commands[k], count, extra);
    EncodedHeader(commands[k], count, extra);
    CountAfterCounts(commands[..k]);
    CountField(count, k);
  }

  /** Bytes a and b stand for the same flag. */
  predicate SameFlag(a: Byte, b: Byte) {
    a != 0 <==> b != 0
  }

  lemma WriteThree(body: seq<Byte>)
    requires |body| >= 24
    ensures BigEndian([DoubleAt(body, 0), DoubleAt(body, 8), DoubleAt(body, 16)]) == body[..24]
  {
    hide Reversed, DoubleAt;
    var a, b, c := DoubleAt(body, 0), DoubleAt(body, 8), DoubleAt(body, 16);
    BigEndianAppend([a, b], c);
    BigEndianAppend([a], b);
    BigEndianAppend([], a);
    assert [a, b, c] == [a, b] + [c] && [a, b] == [a] + [b] && [a] == [] + [a];
    BytesOfDouble(body, 0);
    BytesOfDouble(body, 8);
    BytesOfDouble(body, 16);
    assert body[..24] == body[0..8] + body[8..16] + body[16..24];
  }

  lemma WriteFour(body: seq<Byte>)
    requires |body| >= 32
    ensures BigEndian([DoubleAt(body, 0), DoubleAt(body, 8), DoubleAt(body, 16), DoubleAt(body, 24)]) == body[..32]
  {
    hide Reversed, DoubleAt;
    var a, b, c, d := DoubleAt(body, 0), DoubleAt(body, 8), DoubleAt(body, 16), DoubleAt(body, 24);
    WriteThree(body);
    BigEndianAppend([a, b, c], d);
    assert [a, b, c, d] == [a, b, c] + [d];
    BytesOfDouble(body, 24);
    assert body[..32] == body[..24] + body[24..32];
  }

  lemma BodyReencodes(code: Byte, body: seq<Byte>)
    requires ParseBody(code, body).Some?
    ensures var c := ParseBody(code, body).value;
            && FunctionCode(c) == code
            && |body| >= |Payload(c)| == PayloadSize(c)
            && (c.SetPidGains? ==> SameFlag(Payload(c)[24], body[24]) && Payload(c)[..24] == body[..24])
            && (!c.SetPidGains? ==> Payload(c) == body[..PayloadSize(c)])
  {
    hide BigEndian, DoubleAt;
    var c := ParseBody(code, body).value;
    if c.SlewToTarget? {
      WriteFour(body);
    } else if c.SetPidGains? {
      WriteThree(body);
    }
  }

  /** An accepted packet yields a command whose re-encoding has the packet's type, APID and function
      code, and repeats its payload as far as the command needs it, the gains flag up to zero or
      non-zero. */
  lemma AcceptedPacketReencodes(raw: seq<Byte>, count: Word)
    requires Parse(raw).Some?
    ensures var c := Parse(raw).value;
            var again := Encode(c, count);
            && |again| <= |raw|
            && TypeOf(Received(again).packetId) == TypeOf(Received(raw).packetId)
            && ApidOf(Received(again).packetId) == ApidOf(Received(raw).packetId)
            && again[6] == raw[6]
            && (forall k :: 7 <= k < |again| && !(c.SetPidGains? && k == 31) ==> again[k] == raw[k])
            && (c.SetPidGains? ==> SameFlag(again[31], raw[31]))
  {
    hide HeaderOf, NetworkOrder, Image, Received, VersionOf, TypeOf, SecondaryOf, ApidOf, FlagsOf, CountOf, Value;
    hide Payload, ParseBody, FunctionCode;
    var c := Parse(raw).value;
    var again := Encode(c, count);
    BodyReencodes(raw[6], raw[7..]);
    EncodedHeader(c, count, []);
    assert again + [] == again;
    forall k | 7 <= k < |again| && !(c.SetPidGains? && k == 31) ensures again[k] == raw[k] {
      assert again[k] == Payload(c)[k - 7];
      assert raw[k] == raw[7..][k - 7];
      if c.SetPidGains? {
        assert Payload(c)[k - 7] == Payload(c)[..24][k - 7] == raw[7..][..24][k - 7];
      }
    }
  }

  // ---------- The reader and the parser ----------

  /** A cursor over a payload that never passes its end. */
  class CommandParameterReader {
    const data: seq<Byte>
    var offset: nat

    ghost predicate Valid()
      reads this
    {
      offset <= |data|
    }

    constructor (data: seq<Byte>)
      ensures Valid() && this.data == data && offset == 0
    {
      this.data := data;
      offset := 0;
    }

    /** Reading past the end yields zero and leaves the cursor in place. */
    method ReadDouble() returns (val: Double)
      requires Valid()
      modifies this
      ensures Valid()
      ensures old(offset) + 8 <= |data| ==> val == DoubleAt(data, old(offset)) && offset == old(offset) + 8
      ensures old(offset) + 8 > |data| ==> val == [0, 0, 0, 0, 0, 0, 0, 0] && offset == old(offset)
    {
      if offset + 8 > |data| {
        return [0, 0, 0, 0, 0, 0, 0, 0];
      }
      val := Swap(data[offset..offset + 8]);
      offset := offset + 8;
    }

    method ReadBool() returns (flag: bool)
      requires Valid()
      modifies this
      ensures Valid()
      ensures old(offset) < |data| ==> flag == (data[old(offset)] != 0) && offset == old(offset) + 1
      ensures old(offset) == |data| ==> !flag && offset == old(offset)
    {
      if offset + 1 > |data| {
        return false;
      }
      flag := data[offset] != 0;
      offset := offset + 1;
    }

    method RemainingSize() returns (n: nat)
      requires Valid()
      ensures n == |data| - offset
    {
      n := |data| - offset;
    }
  }

  method ParsePacket(raw: seq<Byte>) returns (command: Option<Command>)
    ensures command == Parse(raw)
  {
    hide VersionOf, TypeOf, ApidOf, Join, Reversed;
    if |raw| < 6 {
      return None;
    }
    var packetId := Join(raw[0], raw[1]);
    var apid := ApidOf(packetId);
    if TypeOf(packetId) != 1 {
      return None;
    }
    if |raw| < 7 {
      return None;
    }
    var code := raw[6];
    var reader := new CommandParameterReader(raw[7..]);
    if apid == GNC {
      var remaining := reader.RemainingSize();
      if code == SLEW_TO_NADIR {
        return Some(SlewToNadir);
      } else if code == SET_GAINS {
        if remaining < 25 {
          return None;
        }
        var kp := reader.ReadDouble();
        var ki := reader.ReadDouble();
        var kd := reader.ReadDouble();
        var nominal := reader.ReadBool();
        return Some(SetPidGains(kp, ki, kd, nominal));
      } else if code == POINT_TARGET {
        if remaining < 32 {
          return None;
        }
        var qx := reader.ReadDouble();
        var qy := reader.ReadDouble();
        var qz := reader.ReadDouble();
        var qw := reader.ReadDouble();
        return Some(SlewToTarget(qw, qx, qy, qz));
      }
    }
    return None;
  }
}
