/** The ground station: numbered command packets out, telemetry in. */
module GroundStation {
  import opened Words
  import opened Ccsds
  import C = Commands
  import T = Telemetry

  /** The stored doubles 0.0 and 1.0. */
  const ZERO: Double := [0, 0, 0, 0, 0, 0, 0, 0]
  const ONE: Double := [0, 0, 0, 0, 0, 0, 0xF0, 0x3F]

  const NOTHING_SEEN := T.Picture(
    T.AttitudeTelemetry(ONE, ZERO, ZERO, ZERO, ZERO, ZERO, ZERO),
    T.OrbitTelemetry(ZERO, ZERO, ZERO, ZERO, ZERO, ZERO),
    map[])

  class Station {
    var commandCount: Word
    var attitude: T.AttitudeTelemetry
    var orbit: T.OrbitTelemetry
    var health: map<seq<Byte>, T.HealthTelemetry>

    function Picture(): T.Picture
      reads this
    {
      T.Picture(attitude, orbit, health)
    }

    constructor ()
      ensures commandCount == 0 && Picture() == NOTHING_SEEN
    {
      commandCount := 0;
      attitude, orbit, health := NOTHING_SEEN.attitude, NOTHING_SEEN.orbit, NOTHING_SEEN.health;
    }

    method CreateCommandHeader(apid: Word, payloadSize: nat) returns (header: CCSDSHeader)
      modifies `commandCount
      ensures fresh(header)
      ensures header.Contents() == NetworkOrder(Sent(1, true, apid, old(commandCount), FromNat(6 + 1 + payloadSize)))
      ensures commandCount == Next(old(commandCount))
    {
      hide Sent, NetworkOrder, FromNat;
      var count := commandCount;
      commandCount := commandCount + 1;
      header := Build(1, true, apid, count, FromNat(6 + 1 + payloadSize));
    }

    method CreateSlewToNadirCommand() returns (packet: seq<Byte>)
      modifies `commandCount
      ensures packet == C.Encode(C.SlewToNadir, old(commandCount)) && commandCount == Next(old(commandCount))
    {
      hide Sent, NetworkOrder, FromNat, Next;
      var header := CreateCommandHeader(C.GNC, 0);
      packet := Image(header.Contents()) + [C.SLEW_TO_NADIR];
    }

    method CreateSlewToTargetCommand(w: Double, x: Double, y: Double, z: Double) returns (packet: seq<Byte>)
      modifies `commandCount
      ensures packet == C.Encode(C.SlewToTarget(w, x, y, z), old(commandCount))
      ensures commandCount == Next(old(commandCount))
    {
      hide Sent, NetworkOrder, FromNat, Next, BigEndian;
      var header := CreateCommandHeader(C.GNC, 32);
      packet := Image(header.Contents()) + [C.POINT_TARGET];
      ghost var head := packet;
      EmptyBigEndian();
      packet := AppendDouble(packet, x, head, []);
      packet := AppendDouble(packet, y, head, [] + [x]);
      packet := AppendDouble(packet, z, head, [] + [x] + [y]);
      packet := AppendDouble(packet, w, head, [] + [x] + [y] + [z]);
      assert [] + [x] + [y] + [z] + [w] == [x, y, z, w];
    }

    method CreateSetPidGainsCommand(kp: Double, ki: Double, kd: Double, nominal: bool) returns (packet: seq<Byte>)
      modifies `commandCount
      ensures packet == C.Encode(C.SetPidGains(kp, ki, kd, nominal), old(commandCount))
      ensures commandCount == Next(old(commandCount))
    {
      hide Sent, NetworkOrder, FromNat, Next, BigEndian;
      var header := CreateCommandHeader(C.GNC, 25);
      packet := Image(header.Contents()) + [C.SET_GAINS];
      ghost var head := packet;
      EmptyBigEndian();
      packet := AppendDouble(packet, kp, head, []);
      packet := AppendDouble(packet, ki, head, [] + [kp]);
      packet := AppendDouble(packet, kd, head, [] + [kp] + [ki]);
      assert [] + [kp] + [ki] + [kd] == [kp, ki, kd];
      packet := packet + [if nominal then 1 else 0];
      assert packet == head + (BigEndian([kp, ki, kd]) + [if nominal then 1 else 0]);
    }

    method ProcessTelemetry(packets: seq<seq<Byte>>)
      modifies this
      ensures commandCount == old(commandCount)
      ensures Picture() == T.Process(old(Picture()), packets)
    {
      hide T.Decode, T.Seen;
      for i := 0 to |packets|
        invariant commandCount == old(commandCount)
        invariant Picture() == T.Process(old(Picture()), packets[..i])
      {
        assert packets[..i + 1][..i] == packets[..i];
        ProcessPacket(packets[i]);
      }
      assert packets[..|packets|] == packets;
    }

    /** One pass of the decoding loop. */
    method ProcessPacket(raw: seq<Byte>)
      modifies this
      ensures commandCount == old(commandCount)
      ensures Picture() == match T.Decode(raw) case None => old(Picture()) case Some(m) => T.Seen(old(Picture()), m)
    {
      hide TypeOf, ApidOf, Join, Reversed, Value;
      if |raw| < 6 {
        return;
      }
      var packetId := Join(raw[0], raw[1]);
      var apid := ApidOf(packetId);
      if TypeOf(packetId) != 0 {
        return;
      }
      if apid == T.ATTITUDE {
        if |raw| < 6 + 56 {
          return;
        }
        var w, k1 := ReadDouble(raw, 6);
        var x, k2 := ReadDouble(raw, k1);
        var y, k3 := ReadDouble(raw, k2);
        var z, k4 := ReadDouble(raw, k3);
        var omegaX, k5 := ReadDouble(raw, k4);
        var omegaY, k6 := ReadDouble(raw, k5);
        var omegaZ, k7 := ReadDouble(raw, k6);
        attitude := T.AttitudeTelemetry(w, x, y, z, omegaX, omegaY, omegaZ);
      } else if apid == T.ORBIT {
        if |raw| < 6 + 48 {
          return;
        }
        var posX, k1 := ReadDouble(raw, 6);
        var posY, k2 := ReadDouble(raw, k1);
        var posZ, k3 := ReadDouble(raw, k2);
        var velX, k4 := ReadDouble(raw, k3);
        var velY, k5 := ReadDouble(raw, k4);
        var velZ, k6 := ReadDouble(raw, k5);
        orbit := T.OrbitTelemetry(posX, posY, posZ, velX, velY, velZ);
      } else if apid == T.HEALTH {
        if |raw| < 6 + 2 {
          return;
        }
        var nameLen := ByteValue(raw[7]);
        if |raw| < 8 + nameLen {
          return;
        }
        var name := raw[8..8 + nameLen];
        health := health[name := T.HealthTelemetry(raw[6], name)];
      }
    }

    method ReadDouble(data: seq<Byte>, offset: nat) returns (val: Double, next: nat)
      requires offset + 8 <= |data|
      ensures val == DoubleAt(data, offset) && next == offset + 8
    {
      val := Swap(data[offset..offset + 8]);
      next := offset + 8;
    }
  }

  lemma EmptyBigEndian()
    ensures BigEndian([]) == []
  {
  }
}
