/** The packets byte by byte, as any other implementation would have to write them. */
module WireFormat {
  import opened Ccsds
  import opened Words
  import C = Commands
  import T = Telemetry

  /** The double d lies at an offset of the packet, most significant byte first. */
  predicate Holds(packet: seq<Byte>, offset: nat, d: Double) {
    && offset + 8 <= |packet|
    && packet[offset..offset + 8] == [d[7], d[6], d[5], d[4], d[3], d[2], d[1], d[0]]
  }

  lemma ReversedByte(d: Double)
    ensures Reversed(d) == [d[7], d[6], d[5], d[4], d[3], d[2], d[1], d[0]]
  {
  }

  lemma HoldsWhatItReads(packet: seq<Byte>, offset: nat, d: Double)
    requires offset + 8 <= |packet| && DoubleAt(packet, offset) == d
    ensures Holds(packet, offset, d)
  {
    BytesOfDouble(packet, offset);
    ReversedByte(d);
    hide DoubleAt, Reversed;
  }

  lemma DoublesLie(ds: seq<Double>, head: seq<Byte>, tail: seq<Byte>, i: nat)
    requires i < |ds|
    ensures Holds(head + BigEndian(ds) + tail, |head| + 8 * i, ds[i])
  {
    hide BigEndian, DoubleAt, Holds;
    DoublesReadBack(head, ds, tail, i);
    HoldsWhatItReads(head + BigEndian(ds) + tail, |head| + 8 * i, ds[i]);
  }

  lemma SmallWords()
    ensures FromNat(7) == 7 && FromNat(32) == 32 && FromNat(39) == 39
    ensures FromNat(62) == 62 && FromNat(54) == 54
  {
    assert FromNat(1) == 1 && FromNat(3) == 3 && FromNat(7) == 7;
    assert FromNat(2) == 2 && FromNat(4) == 4 && FromNat(8) == 8 && FromNat(16) == 16;
    assert FromNat(9) == 9 && FromNat(19) == 19;
    assert FromNat(15) == 15 && FromNat(31) == 31;
    assert FromNat(6) == 6 && FromNat(13) == 13 && FromNat(27) == 27;
  }

  lemma LengthBytes()
    ensures HighByte(7 - 1) == 0 && LowByte(7 - 1) == 6
    ensures HighByte(32 - 1) == 0 && LowByte(32 - 1) == 31
    ensures HighByte(39 - 1) == 0 && LowByte(39 - 1) == 38
    ensures HighByte(62 - 1) == 0 && LowByte(62 - 1) == 61
    ensures HighByte(54 - 1) == 0 && LowByte(54 - 1) == 53
  {
  }

  /** Every command on the wire: type 1, secondary header and APID 201 in the first two bytes, the count, the
      length less one, the function code, and the parameters in network order, the quaternion's scalar last. */
  lemma CommandOnTheWire(c: C.Command, count: Word)
    ensures var p := C.Encode(c, count);
            && |p| >= 7
            && p[..4] == [0x18, 0xC9, 0xC0 | (((count >> 8) & 0x3F) as Byte), (count & 0xFF) as Byte]
            && match c
               case SlewToNadir => |p| == 7 && p[4..7] == [0, 6, 0x01]
               case SlewToTarget(w, x, y, z) =>
                 && |p| == 39 && p[4..7] == [0, 38, 0x04]
                 && Holds(p, 7, x) && Holds(p, 15, y) && Holds(p, 23, z) && Holds(p, 31, w)
               case SetPidGains(kp, ki, kd, nominal) =>
                 && |p| == 32 && p[4..7] == [0, 31, 0x03]
                 && Holds(p, 7, kp) && Holds(p, 15, ki) && Holds(p, 23, kd)
                 && p[31] == if nominal then 1 else 0
  {
    hide Sent, NetworkOrder, Image, BigEndian, FromNat, LowByte, HighByte, Holds;
    SmallWords();
    LengthBytes();
    CommandApid();
    var head := Image(NetworkOrder(C.HeaderOf(c, count))) + [C.FunctionCode(c)];
    HeaderOnTheWire(1, true, 201, count, FromNat(7 + C.PayloadSize(c)));
    match c
    case SlewToNadir =>
    case SlewToTarget(w, x, y, z) =>
      assert C.Encode(c, count) == head + BigEndian([x, y, z, w]) + [];
      DoublesLie([x, y, z, w], head, [], 0);
      DoublesLie([x, y, z, w], head, [], 1);
      DoublesLie([x, y, z, w], head, [], 2);
      DoublesLie([x, y, z, w], head, [], 3);
    case SetPidGains(kp, ki, kd, nominal) =>
      var flag: seq<Byte> := [if nominal then 1 else 0];
      assert C.Encode(c, count) == head + BigEndian([kp, ki, kd]) + flag;
      DoublesLie([kp, ki, kd], head, flag, 0);
      DoublesLie([kp, ki, kd], head, flag, 1);
      DoublesLie([kp, ki, kd], head, flag, 2);
  }

  lemma CommandApid()
    ensures ((1 as Byte & 1) << 4) | (if true then 8 else 0) | ((((201 as Word >> 8) & 7)) as Byte) == 0x18
    ensures (201 as Word & 0xFF) as Byte == 0xC9
  {
  }

  lemma TelemetryApids()
    ensures ((0 as Byte & 1) << 4) | (if false then 8 else 0) | ((((100 as Word >> 8) & 7)) as Byte) == 0
    ensures ((0 as Byte & 1) << 4) | (if false then 8 else 0) | ((((101 as Word >> 8) & 7)) as Byte) == 0
    ensures ((0 as Byte & 1) << 4) | (if false then 8 else 0) | ((((102 as Word >> 8) & 7)) as Byte) == 0
    ensures (100 as Word & 0xFF) as Byte == 100 && (101 as Word & 0xFF) as Byte == 101
    ensures (102 as Word & 0xFF) as Byte == 102
  {
  }

  /** Every telemetry packet on the wire: type 0, no secondary header and APID 100, 101 or 102, the count, the
      length less one, and the fields in network order, the quaternion's scalar first; a name is cut to 255
      bytes and preceded by its status and length. */
  lemma TelemetryOnTheWire(m: T.Message, count: Word)
    ensures var p := T.Encode(m, count);
            && |p| >= 6
            && p[0] == 0
            && p[2..4] == [0xC0 | (((count >> 8) & 0x3F) as Byte), (count & 0xFF) as Byte]
            && match m
               case Attitude(a) =>
                 && |p| == 62 && p[1] == 100 && p[4..6] == [0, 61]
                 && Holds(p, 6, a.w) && Holds(p, 14, a.x) && Holds(p, 22, a.y) && Holds(p, 30, a.z)
                 && Holds(p, 38, a.omegaX) && Holds(p, 46, a.omegaY) && Holds(p, 54, a.omegaZ)
               case Orbit(o) =>
                 && |p| == 54 && p[1] == 101 && p[4..6] == [0, 53]
                 && Holds(p, 6, o.posX) && Holds(p, 14, o.posY) && Holds(p, 22, o.posZ)
                 && Holds(p, 30, o.velX) && Holds(p, 38, o.velY) && Holds(p, 46, o.velZ)
               case Health(name, status) =>
                 var n := if |name| < 255 then |name| else 255;
                 && |p| == 8 + n && p[1] == 102 && Value(Join(p[4], p[5])) == 7 + n
                 && p[6] == status && ByteValue(p[7]) == n && p[8..] == name[..n]
  {
    hide Sent, NetworkOrder, Image, BigEndian, FromNat, LowByte, HighByte, Holds, T.Packet;
    TelemetryApids();
    match m
    case Attitude(a) => AttitudeOnTheWire(a, count);
    case Orbit(o) => OrbitOnTheWire(o, count);
    case Health(name, status) => HealthOnTheWire(name, status, count);
  }

  lemma AttitudeOnTheWire(a: T.AttitudeTelemetry, count: Word)
    ensures var p := T.Encode(T.Attitude(a), count);
            && |p| == 62
            && p[..4] == [0, 100, 0xC0 | (((count >> 8) & 0x3F) as Byte), (count & 0xFF) as Byte]
            && p[4..6] == [0, 61]
            && Holds(p, 6, a.w) && Holds(p, 14, a.x) && Holds(p, 22, a.y) && Holds(p, 30, a.z)
            && Holds(p, 38, a.omegaX) && Holds(p, 46, a.omegaY) && Holds(p, 54, a.omegaZ)
  {
    hide Sent, NetworkOrder, Image, BigEndian, FromNat, LowByte, HighByte, Holds;
    SmallWords();
    LengthBytes();
    TelemetryApids();
    HeaderOnTheWire(0, false, 100, count, FromNat(62));
    var head, ds := Image(NetworkOrder(Sent(0, false, 100, count, FromNat(62)))), T.AttitudeDoubles(a);
    assert T.Encode(T.Attitude(a), count) == head + BigEndian(ds) + [];
    DoublesLie(ds, head, [], 0);
    DoublesLie(ds, head, [], 1);
    DoublesLie(ds, head, [], 2);
    DoublesLie(ds, head, [], 3);
    DoublesLie(ds, head, [], 4);
    DoublesLie(ds, head, [], 5);
    DoublesLie(ds, head, [], 6);
  }

  lemma OrbitOnTheWire(o: T.OrbitTelemetry, count: Word)
    ensures var p := T.Encode(T.Orbit(o), count);
            && |p| == 54
            && p[..4] == [0, 101, 0xC0 | (((count >> 8) & 0x3F) as Byte), (count & 0xFF) as Byte]
            && p[4..6] == [0, 53]
            && Holds(p, 6, o.posX) && Holds(p, 14, o.posY) && Holds(p, 22, o.posZ)
            && Holds(p, 30, o.velX) && Holds(p, 38, o.velY) && Holds(p, 46, o.velZ)
  {
    hide Sent, NetworkOrder, Image, BigEndian, FromNat, LowByte, HighByte, Holds;
    SmallWords();
    LengthBytes();
    TelemetryApids();
    HeaderOnTheWire(0, false, 101, count, FromNat(54));
    var head, ds := Image(NetworkOrder(Sent(0, false, 101, count, FromNat(54)))), T.OrbitDoubles(o);
    assert T.Encode(T.Orbit(o), count) == head + BigEndian(ds) + [];
    DoublesLie(ds, head, [], 0);
    DoublesLie(ds, head, [], 1);
    DoublesLie(ds, head, [], 2);
    DoublesLie(ds, head, [], 3);
    DoublesLie(ds, head, [], 4);
    DoublesLie(ds, head, [], 5);
  }

  lemma HealthOnTheWire(name: seq<Byte>, status: Byte, count: Word)
    ensures var p, n := T.Encode(T.Health(name, status), count), if |name| < 255 then |name| else 255;
            && |p| == 8 + n
            && p[..4] == [0, 102, 0xC0 | (((count >> 8) & 0x3F) as Byte), (count & 0xFF) as Byte]
            && Value(Join(p[4], p[5])) == 7 + n
            && p[6] == status && ByteValue(p[7]) == n && p[8..] == name[..n]
  {
    hide Sent, NetworkOrder, Image, FromNat, LowByte, HighByte, Value, ByteFromNat, ByteValue, Join, FieldsOf;
    TelemetryApids();
    var p, payload := T.Encode(T.Health(name, status), count), T.Payload(T.Health(name, status));
    HeaderOnTheWire(0, false, 102, count, FromNat(6 + |payload|));
    T.PacketHeader(102, count, payload, []);
    assert p + [] == p;
    ValueOfByte(|T.ShortName(name)|);
  }

  // ---------- What the receivers accept ----------

  lemma TypeBit(a: Byte, b: Byte)
    ensures TypeOf(Join(a, b)) == 1 <==> a & 0x10 != 0
    ensures TypeOf(Join(a, b)) == 0 <==> a & 0x10 == 0
  {
  }

  lemma ApidBits(a: Byte, b: Byte)
    ensures ApidOf(Join(a, b)) == 201 <==> a & 7 == 0 && b == 201
    ensures ApidOf(Join(a, b)) == 100 <==> a & 7 == 0 && b == 100
    ensures ApidOf(Join(a, b)) == 101 <==> a & 7 == 0 && b == 101
    ensures ApidOf(Join(a, b)) == 102 <==> a & 7 == 0 && b == 102
  {
  }

  /** The flight software accepts bytes as a command exactly when the type bit, the APID and the function code are
      right and the parameters are all there; nothing else in the header matters, its length included. */
  lemma AcceptedCommands(raw: seq<Byte>)
    ensures C.Parse(raw).Some? <==>
              && |raw| >= 7
              && raw[0] & 0x10 != 0 && raw[0] & 7 == 0 && raw[1] == 0xC9
              && (raw[6] == 0x01 || (raw[6] == 0x03 && |raw| >= 32) || (raw[6] == 0x04 && |raw| >= 39))
  {
    hide TypeOf, ApidOf, Join, DoubleAt;
    if |raw| >= 7 {
      TypeBit(raw[0], raw[1]);
      ApidBits(raw[0], raw[1]);
    }
  }

  /** The ground station accepts bytes as telemetry exactly when the type bit is clear, the APID is one of the
      three and the fields are all there, and reads each field where it lies. */
  lemma AcceptedTelemetry(raw: seq<Byte>)
    ensures T.Decode(raw).Some? <==>
              && |raw| >= 6 && raw[0] & 0x10 == 0 && raw[0] & 7 == 0
              && (|| (raw[1] == 100 && |raw| >= 62)
                  || (raw[1] == 101 && |raw| >= 54)
                  || (raw[1] == 102 && |raw| >= 8 && |raw| >= 8 + ByteValue(raw[7])))
    ensures T.Decode(raw).Some? ==>
              match T.Decode(raw).value
              case Attitude(a) =>
                && raw[1] == 100
                && Holds(raw, 6, a.w) && Holds(raw, 14, a.x) && Holds(raw, 22, a.y) && Holds(raw, 30, a.z)
                && Holds(raw, 38, a.omegaX) && Holds(raw, 46, a.omegaY) && Holds(raw, 54, a.omegaZ)
              case Orbit(o) =>
                && raw[1] == 101
                && Holds(raw, 6, o.posX) && Holds(raw, 14, o.posY) && Holds(raw, 22, o.posZ)
                && Holds(raw, 30, o.velX) && Holds(raw, 38, o.velY) && Holds(raw, 46, o.velZ)
              case Health(name, status) =>
                raw[1] == 102 && raw[6] == status && name == raw[8..8 + ByteValue(raw[7])]
  {
    hide TypeOf, ApidOf, Join, DoubleAt, Holds, ByteValue;
    if |raw| >= 6 {
      TypeBit(raw[0], raw[1]);
      ApidBits(raw[0], raw[1]);
    }
    if |raw| >= 62 {
      DoublesAreHeld(raw, 6);
      HoldsWhatItReads(raw, 54, DoubleAt(raw, 54));
    } else if |raw| >= 54 {
      DoublesAreHeld(raw, 6);
    }
  }

  lemma DoublesAreHeld(raw: seq<Byte>, k: nat)
    requires k + 48 <= |raw|
    ensures Holds(raw, k, DoubleAt(raw, k)) && Holds(raw, k + 8, DoubleAt(raw, k + 8))
    ensures Holds(raw, k + 16, DoubleAt(raw, k + 16)) && Holds(raw, k + 24, DoubleAt(raw, k + 24))
    ensures Holds(raw, k + 32, DoubleAt(raw, k + 32)) && Holds(raw, k + 40, DoubleAt(raw, k + 40))
  {
    hide DoubleAt, Holds;
    HoldsWhatItReads(raw, k, DoubleAt(raw, k));
    HoldsWhatItReads(raw, k + 8, DoubleAt(raw, k + 8));
    HoldsWhatItReads(raw, k + 16, DoubleAt(raw, k + 16));
    HoldsWhatItReads(raw, k + 24, DoubleAt(raw, k + 24));
    HoldsWhatItReads(raw, k + 32, DoubleAt(raw, k + 32));
    HoldsWhatItReads(raw, k + 40, DoubleAt(raw, k + 40));
  }
}
