/** Telemetry packets: the encoders of the flight software with their sequence counters, and the
    decoder of the ground station. */
module Telemetry {
  import opened Bits
  import opened Ccsds
  import opened Options
  import opened Words

  const ATTITUDE: Word := 100
  const ORBIT: Word := 101
  const HEALTH: Word := 102

  datatype AttitudeTelemetry = AttitudeTelemetry(
    w: Double, x: Double, y: Double, z: Double, omegaX: Double, omegaY: Double, omegaZ: Double)

  datatype OrbitTelemetry = OrbitTelemetry(
    posX: Double, posY: Double, posZ: Double, velX: Double, velY: Double, velZ: Double)

  /** The arguments of the three encoders.  A health status travels as its one-byte code. */
  datatype Message =
    | Attitude(attitude: AttitudeTelemetry)
    | Orbit(orbit: OrbitTelemetry)
    | Health(name: seq<Byte>, status: Byte)

  // ---------- Encoding ----------

  function Channel(m: Message): Word {
    match m
    case Attitude(_) => ATTITUDE
    case Orbit(_) => ORBIT
    case Health(_, _) => HEALTH
  }

  function ShortName(name: seq<Byte>): (r: seq<Byte>)
    ensures |r| <= 255
  {
    if |name| <= 255 then name else name[..255]
  }

  function AttitudeDoubles(a: AttitudeTelemetry): seq<Double> {
    [a.w, a.x, a.y, a.z, a.omegaX, a.omegaY, a.omegaZ]
  }

  function OrbitDoubles(o: OrbitTelemetry): seq<Double> {
    [o.posX, o.posY, o.posZ, o.velX, o.velY, o.velZ]
  }

  function Payload(m: Message): seq<Byte> {
    match m
    case Attitude(a) => BigEndian(AttitudeDoubles(a))
    case Orbit(o) => BigEndian(OrbitDoubles(o))
    case Health(name, status) => [status, ByteFromNat(|ShortName(name)|)] + ShortName(name)
  }

  function Packet(apid: Word, count: Word, payload: seq<Byte>): (packet: seq<Byte>)
    ensures |packet| == 6 + |payload|
  {
    Image(NetworkOrder(Sent(0, false, apid, count, FromNat(6 + |payload|)))) + payload
  }

  function Encode(m: Message, count: Word): seq<Byte> {
    Packet(Channel(m), count, Payload(m))
  }

  // ---------- Decoding ----------

  function AttitudeAt(raw: seq<Byte>, k: nat): AttitudeTelemetry
    requires k + 56 <= |raw|
  {
    AttitudeTelemetry(DoubleAt(raw, k), DoubleAt(raw, k + 8), DoubleAt(raw, k + 16), DoubleAt(raw, k + 24),
                      DoubleAt(raw, k + 32), DoubleAt(raw, k + 40), DoubleAt(raw, k + 48))
  }

  function OrbitAt(raw: seq<Byte>, k: nat): OrbitTelemetry
    requires k + 48 <= |raw|
  {
    OrbitTelemetry(DoubleAt(raw, k), DoubleAt(raw, k + 8), DoubleAt(raw, k + 16),
                   DoubleAt(raw, k + 24), DoubleAt(raw, k + 32), DoubleAt(raw, k + 40))
  }

  function Decode(raw: seq<Byte>): Option<Message> {
    if |raw| < 6 || TypeOf(Received(raw).packetId) != 0 then None
    else
      var apid := ApidOf(Received(raw).packetId);
      if apid == ATTITUDE then
        if |raw| < 6 + 56 then None else Some(Attitude(AttitudeAt(raw, 6)))
      else if apid == ORBIT then
        if |raw| < 6 + 48 then None else Some(Orbit(OrbitAt(raw, 6)))
      else if apid == HEALTH then
        if |raw| < 6 + 2 || |raw| < 8 + ByteValue(raw[7]) then None
        else Some(Health(raw[8..8 + ByteValue(raw[7])], raw[6]))
      else None
  }

  /** A message as the decoder returns it: long names are cut. */
  function Cut255(m: Message): Message {
    match m
    case Health(name, status) => Health(ShortName(name), status)
    case _ => m
  }

  lemma ChannelsAreApids()
    ensures ApidOf(ATTITUDE) == ATTITUDE && ApidOf(ORBIT) == ORBIT && ApidOf(HEALTH) == HEALTH
    ensures Cut(0, 1) == 0
  {
  }

  lemma PacketHeader(apid: Word, count: Word, payload: seq<Byte>, extra: seq<Byte>)
    ensures var h := Received(Packet(apid, count, payload) + extra);
            && FieldsOf(h) == Fields(0, Cut(0, 1), 0, ApidOf(apid), 3, CountOf(count), h.packetLength)
            && Value(h.packetLength) == (|Packet(apid, count, payload)| - 1) % 65536
  {
    hide Sent, NetworkOrder, Image, Received, VersionOf, TypeOf, SecondaryOf, ApidOf, FlagsOf, CountOf, Cut, FromNat;
    hide Value;
    var total := 6 + |payload|;
    var h := Sent(0, false, apid, count, FromNat(total));
    assert Packet(apid, count, payload) + extra == Image(NetworkOrder(h)) + (payload + extra);
    ReceivedImage(h, payload + extra);
    SentFields(0, false, apid, count, FromNat(total));
    StoredLength(0, false, apid, count, total);
  }

  lemma AttitudeReadBack(header: seq<Byte>, a: AttitudeTelemetry, extra: seq<Byte>)
    requires |header| == 6
    ensures AttitudeAt(header + BigEndian(AttitudeDoubles(a)) + extra, 6) == a
  {
    hide DoubleAt, BigEndian;
    var ds := AttitudeDoubles(a);
    DoublesReadBack(header, ds, extra, 0);
    DoublesReadBack(header, ds, extra, 1);
    DoublesReadBack(header, ds, extra, 2);
    DoublesReadBack(header, ds, extra, 3);
    DoublesReadBack(header, ds, extra, 4);
    DoublesReadBack(header, ds, extra, 5);
    DoublesReadBack(header, ds, extra, 6);
  }

  lemma OrbitReadBack(header: seq<Byte>, o: OrbitTelemetry, extra: seq<Byte>)
    requires |header| == 6
    ensures OrbitAt(header + BigEndian(OrbitDoubles(o)) + extra, 6) == o
  {
    hide DoubleAt, BigEndian;
    var ds := OrbitDoubles(o);
    DoublesReadBack(header, ds, extra, 0);
    DoublesReadBack(header, ds, extra, 1);
    DoublesReadBack(header, ds, extra, 2);
    DoublesReadBack(header, ds, extra, 3);
    DoublesReadBack(header, ds, extra, 4);
    DoublesReadBack(header, ds, extra, 5);
  }

  lemma PayloadIsShort(m: Message)
    ensures |Payload(m)| <= 257
  {
  }

  /** The decoder inverts each encoder, up to the cut of long names, whatever the counter and any
      trailing bytes. */
  lemma DecodeInvertsEncode(m: Message, count: Word, extra: seq<Byte>)
    ensures Decode(Encode(m, count) + extra) == Some(Cut255(m))
  {
    hide Sent, NetworkOrder, Image, Received, VersionOf, TypeOf, SecondaryOf, ApidOf, FlagsOf, CountOf, Cut, FromNat;
    hide Value, ByteFromNat;
    hide BigEndian, AttitudeAt, OrbitAt, ByteValue;
    PayloadIsShort(m);
    PacketHeader(Channel(m), count, Payload(m), extra);
    ChannelsAreApids();
    var header := Encode(m, count)[..6];
    var raw := Encode(m, count) + extra;
    assert raw == header + Payload(m) + extra;
    match m
    case Attitude(a) => AttitudeReadBack(header, a, extra);
    case Orbit(o) => OrbitReadBack(header, o, extra);
    case Health(name, status) =>
      ValueOfByte(|ShortName(name)|);
      assert raw[6] == status && raw[7] == ByteFromNat(|ShortName(name)|);
      assert raw[8..8 + |ShortName(name)|] == ShortName(name);
  }

  // ---------- Processing lists of packets ----------

  datatype HealthTelemetry = HealthTelemetry(status: Byte, name: seq<Byte>)

  /** What the ground station keeps. */
  datatype Picture = Picture(
    attitude: AttitudeTelemetry, orbit: OrbitTelemetry, health: map<seq<Byte>, HealthTelemetry>)

  function Seen(p: Picture, m: Message): Picture {
    match m
    case Attitude(a) => p.(attitude := a)
    case Orbit(o) => p.(orbit := o)
    case Health(name, status) => p.(health := p.health[name := HealthTelemetry(status, name)])
  }

  function SeenAll(p: Picture, ms: seq<Message>): Picture
    decreases |ms|
  {
    if ms == [] then p else Seen(SeenAll(p, ms[..|ms| - 1]), ms[|ms| - 1])
  }

  function Process(p: Picture, packets: seq<seq<Byte>>): Picture
    decreases |packets|
  {
    if packets == [] then p
    else
      var before := Process(p, packets[..|packets| - 1]);
      match Decode(packets[|packets| - 1])
      case None => before
      case Some(m) => Seen(before, m)
  }

  /** What arrives: an encoded message, or bytes the decoder rejects. */
  datatype Arrival = Genuine(m: Message, count: Word) | Noise(bytes: seq<Byte>)

  function Bytes(a: Arrival): seq<Byte> {
    match a
    case Genuine(m, count) => Encode(m, count)
    case Noise(bytes) => bytes
  }

  function AllBytes(arrivals: seq<Arrival>): (r: seq<seq<Byte>>)
    ensures |r| == |arrivals|
  {
    seq(|arrivals|, i requires 0 <= i < |arrivals| => Bytes(arrivals[i]))
  }

  ghost predicate NoiseIsRejected(arrivals: seq<Arrival>) {
    forall i :: 0 <= i < |arrivals| && arrivals[i].Noise? ==> Decode(arrivals[i].bytes) == None
  }

  /** The encoded messages in order of arrival, as decoded. */
  function Messages(arrivals: seq<Arrival>): seq<Message>
    decreases |arrivals|
  {
    if arrivals == [] then []
    else
      var before := Messages(arrivals[..|arrivals| - 1]);
      match arrivals[|arrivals| - 1]
      case Genuine(m, _) => before + [Cut255(m)]
      case Noise(_) => before
  }

  /** Encoded packets mixed with rejected bytes leave the picture that the encoders' arguments give,
      taken in order. */
  lemma {:induction false} ProcessSeesMessages(p: Picture, arrivals: seq<Arrival>)
    requires NoiseIsRejected(arrivals)
    ensures Process(p, AllBytes(arrivals)) == SeenAll(p, Messages(arrivals))
    decreases |arrivals|
  {
    hide Decode, Encode, Seen, Cut255, SeenAll;
    if arrivals == [] {
      NothingSeen(p);
    } else {
      var before, last := arrivals[..|arrivals| - 1], arrivals[|arrivals| - 1];
      ProcessSeesMessages(p, before);
      assert AllBytes(arrivals)[..|arrivals| - 1] == AllBytes(before);
      if last.Genuine? {
        DecodeGenuine(last.m, last.count);
        SeenNext(p, Messages(before), Cut255(last.m));
      }
    }
  }

  lemma NothingSeen(p: Picture)
    ensures SeenAll(p, []) == p
  {
  }

  lemma SeenNext(p: Picture, ms: seq<Message>, m: Message)
    ensures SeenAll(p, ms + [m]) == Seen(SeenAll(p, ms), m)
  {
    hide Seen;
    assert (ms + [m])[..|ms|] == ms;
  }

  lemma DecodeGenuine(m: Message, count: Word)
    ensures Decode(Encode(m, count)) == Some(Cut255(m))
  {
    hide Decode, Encode, Cut255;
    DecodeInvertsEncode(m, count, []);
    assert Encode(m, count) + [] == Encode(m, count);
  }

  /** Processing a concatenation of lists is processing them in turn. */
  lemma {:induction false} ProcessInTurn(p: Picture, a: seq<seq<Byte>>, b: seq<seq<Byte>>)
    ensures Process(p, a + b) == Process(Process(p, a), b)
    decreases |b|
  {
    hide Decode, Seen;
    if b == [] {
      assert a + b == a;
    } else {
      assert (a + b)[..|a + b| - 1] == a + b[..|b| - 1];
      ProcessInTurn(p, a, b[..|b| - 1]);
    }
  }

  // ---------- The last message wins ----------

  /** Both messages set the same entry of the picture. */
  predicate SameEntry(a: Message, b: Message) {
    match a
    case Attitude(_) => b.Attitude?
    case Orbit(_) => b.Orbit?
    case Health(name, _) => b.Health? && b.name == name
  }

  predicate Shows(p: Picture, m: Message) {
    match m
    case Attitude(a) => p.attitude == a
    case Orbit(o) => p.orbit == o
    case Health(name, status) => name in p.health && p.health[name] == HealthTelemetry(status, name)
  }

  /** A message with no later one for the same entry is what the picture shows. */
  lemma {:induction false} LastMessageWins(p: Picture, ms: seq<Message>, i: nat)
    requires i < |ms| && forall j :: i < j < |ms| ==> !SameEntry(ms[i], ms[j])
    ensures Shows(SeenAll(p, ms), ms[i])
    decreases |ms|
  {
    if i < |ms| - 1 {
      LastMessageWins(p, ms[..|ms| - 1], i);
      assert !SameEntry(ms[i], ms[|ms| - 1]);
    }
  }

  /** Entries that no message concerns keep what they showed. */
  lemma {:induction false} OthersAreKept(p: Picture, ms: seq<Message>, m: Message)
    requires Shows(p, m) && forall j :: 0 <= j < |ms| ==> !SameEntry(m, ms[j])
    ensures Shows(SeenAll(p, ms), m)
    decreases |ms|
  {
    if ms != [] {
      OthersAreKept(p, ms[..|ms| - 1], m);
      assert !SameEntry(m, ms[|ms| - 1]);
    }
  }

  // ---------- Sequence counters ----------

  const CHANNELS := 2048

  /** The counter that an APID uses. */
  function Slot(apid: Word): (i: nat)
    ensures i < CHANNELS
  {
    SlotIsSmall(apid);
    Value(ApidOf(apid))
  }

  lemma SlotIsSmall(apid: Word)
    ensures Value(ApidOf(apid)) < CHANNELS
  {
    hide Value, Masked, Pow2;
    LowMasks();
    Powers();
    assert ApidOf(apid) == Masked(apid, LowMask(11)) by { ApidIsMasked(apid); }
    MaskIsRemainder(apid, 11);
  }

  type Counters = s: seq<Word> | |s| == CHANNELS witness seq(CHANNELS, i => 0)

  function Zeroed(): Counters {
    seq(CHANNELS, i => 0)
  }

  function Bumped(c: Counters, apid: Word): Counters {
    c[Slot(apid) := Next(c[Slot(apid)])]
  }

  /** Packets are described by their APID and payload, so the statement covers every channel. */
  datatype Request = Request(apid: Word, payload: seq<Byte>)

  function CountersAfter(rs: seq<Request>): Counters
    decreases |rs|
  {
    if rs == [] then Zeroed() else Bumped(CountersAfter(rs[..|rs| - 1]), rs[|rs| - 1].apid)
  }

  /** The packet sent for the last of a list of requests. */
  function LastPacket(rs: seq<Request>): seq<Byte>
    requires rs != []
  {
    var r := rs[|rs| - 1];
    Packet(r.apid, CountersAfter(rs[..|rs| - 1])[Slot(r.apid)], r.payload)
  }

  /** How many requests used the slot of an APID. */
  function Used(rs: seq<Request>, apid: Word): nat
    decreases |rs|
  {
    if rs == [] then 0
    else Used(rs[..|rs| - 1], apid) + if ApidOf(rs[|rs| - 1].apid) == ApidOf(apid) then 1 else 0
  }

  lemma SlotIsApid(a: Word, b: Word)
    ensures Slot(a) == Slot(b) <==> ApidOf(a) == ApidOf(b)
  {
    hide Value, ApidOf;
    if Slot(a) == Slot(b) {
      ValueIsInjective(ApidOf(a), ApidOf(b));
    }
  }

  lemma {:induction false} CounterCountsUses(rs: seq<Request>, apid: Word)
    ensures Value(CountersAfter(rs)[Slot(apid)]) == Used(rs, apid) % 65536
    decreases |rs|
  {
    hide Value, Next, ApidOf, Slot;
    if rs == [] {
      ValueOfZero();
    } else {
      var before, last := rs[..|rs| - 1], rs[|rs| - 1].apid;
      CounterCountsUses(before, apid);
      SlotIsApid(last, apid);
      NextCount(CountersAfter(before)[Slot(apid)], Used(before, apid));
    }
  }

  /** In any interleaving of packets over any APIDs, from zeroed counters, the k-th packet of a
      channel (from 0) carries the sequence count k mod 16384, although the counter wraps at 65536. */
  lemma SequenceCountIsIndex(rs: seq<Request>)
    requires rs != []
    ensures var h := Received(LastPacket(rs));
            var apid := rs[|rs| - 1].apid;
            && Value(CountOf(h.sequenceCtrl)) == Used(rs[..|rs| - 1], apid) % 16384
            && ApidOf(h.packetId) == ApidOf(apid)
            && Value(h.packetLength) == (|LastPacket(rs)| - 1) % 65536
  {
    hide Packet, Received, Value, ApidOf, CountOf, TypeOf, VersionOf, SecondaryOf, FlagsOf;
    hide CountersAfter, Used;
    var before, r := rs[..|rs| - 1], rs[|rs| - 1];
    var count := CountersAfter(before)[Slot(r.apid)];
    PacketHeader(r.apid, count, r.payload, []);
    assert LastPacket(rs) + [] == LastPacket(rs);
    CounterCountsUses(before, r.apid);
    CountField(count, Used(before, r.apid));
  }

  // ---------- The service ----------

  function Zeros(n: nat): (r: seq<Byte>)
    ensures |r| == n
  {
    seq(n, i => 0)
  }

  lemma FilledIn(header: seq<Byte>, status: Byte, length: Byte, name: seq<Byte>)
    requires |header| == 6
    ensures (header + Zeros(2 + |name|))[6 := status][7 := length][..8] + name == header + ([status, length] + name)
  {
  }

  class TelemetryService {
    const counts: array<Word>

    ghost predicate Valid() {
      counts.Length == CHANNELS
    }

    constructor ()
      ensures Valid() && fresh(counts) && counts[..] == Zeroed()
    {
      counts := new Word[CHANNELS](i => 0);
    }

    /** A packet with an empty payload of the given size; the counter of the channel moves on. */
    method PreparePacket(apid: Word, size: nat) returns (packet: seq<Byte>)
      requires Valid()
      modifies counts
      ensures packet == Packet(apid, old(counts[Slot(apid)]), Zeros(size))
      ensures counts[..] == Bumped(old(counts[..]), apid)
    {
      hide Slot, ApidOf, Sent, NetworkOrder, FromNat;
      var slot := Slot(apid);
      var count := counts[slot];
      counts[slot] := count + 1;
      assert counts[..] == old(counts[..])[slot := Next(count)];
      var header := Build(0, false, apid, count, FromNat(6 + size));
      packet := Image(header.Contents()) + Zeros(size);
    }

    method EncodeAttitude(a: AttitudeTelemetry) returns (packet: seq<Byte>)
      requires Valid()
      modifies counts
      ensures packet == Encode(Attitude(a), old(counts[Slot(ATTITUDE)]))
      ensures counts[..] == Bumped(old(counts[..]), ATTITUDE)
    {
      hide Slot, Sent, NetworkOrder, FromNat, BigEndian, Reversed;
      packet := PreparePacket(ATTITUDE, 56);
      ghost var ds: seq<Double> := [];
      var payload: seq<Byte> := [];
      payload := AppendDouble(payload, a.w, [], ds);
      ds := ds + [a.w];
      payload := AppendDouble(payload, a.x, [], ds);
      ds := ds + [a.x];
      payload := AppendDouble(payload, a.y, [], ds);
      ds := ds + [a.y];
      payload := AppendDouble(payload, a.z, [], ds);
      ds := ds + [a.z];
      payload := AppendDouble(payload, a.omegaX, [], ds);
      ds := ds + [a.omegaX];
      payload := AppendDouble(payload, a.omegaY, [], ds);
      ds := ds + [a.omegaY];
      payload := AppendDouble(payload, a.omegaZ, [], ds);
      ds := ds + [a.omegaZ];
      assert ds == AttitudeDoubles(a);
      packet := packet[..6] + payload;
    }

    method EncodeOrbit(o: OrbitTelemetry) returns (packet: seq<Byte>)
      requires Valid()
      modifies counts
      ensures packet == Encode(Orbit(o), old(counts[Slot(ORBIT)]))
      ensures counts[..] == Bumped(old(counts[..]), ORBIT)
    {
      hide Slot, Sent, NetworkOrder, FromNat, BigEndian, Reversed;
      packet := PreparePacket(ORBIT, 48);
      ghost var ds: seq<Double> := [];
      var payload: seq<Byte> := [];
      payload := AppendDouble(payload, o.posX, [], ds);
      ds := ds + [o.posX];
      payload := AppendDouble(payload, o.posY, [], ds);
      ds := ds + [o.posY];
      payload := AppendDouble(payload, o.posZ, [], ds);
      ds := ds + [o.posZ];
      payload := AppendDouble(payload, o.velX, [], ds);
      ds := ds + [o.velX];
      payload := AppendDouble(payload, o.velY, [], ds);
      ds := ds + [o.velY];
      payload := AppendDouble(payload, o.velZ, [], ds);
      ds := ds + [o.velZ];
      assert ds == OrbitDoubles(o);
      packet := packet[..6] + payload;
    }

    method EncodeHealth(name: seq<Byte>, status: Byte) returns (packet: seq<Byte>)
      requires Valid()
      modifies counts
      ensures packet == Encode(Health(name, status), old(counts[Slot(HEALTH)]))
      ensures counts[..] == Bumped(old(counts[..]), HEALTH)
    {
      hide Slot, Sent, NetworkOrder, FromNat, ByteFromNat, Image, Bumped;
      var length := if |name| < 255 then |name| else 255;
      packet := PreparePacket(HEALTH, 2 + length);
      FilledIn(Image(NetworkOrder(Sent(0, false, HEALTH, old(counts[Slot(HEALTH)]), FromNat(8 + length)))),
               status, ByteFromNat(length), name[..length]);
      packet := packet[6 := status];
      packet := packet[7 := ByteFromNat(length)];
      packet := packet[..8] + name[..length];
      assert name[..length] == ShortName(name);
    }
  }
}
