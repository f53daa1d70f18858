/** The six-byte space packet header of section 4.1.2 of CCSDS 133.0-B-1, as the code writes it. */
module Ccsds {
  import opened Bits
  import opened Words

  datatype Header = Header(packetId: Word, sequenceCtrl: Word, packetLength: Word)

  datatype Setter =
    | Version(v: Byte)
    | Type(v: Byte)
    | SecondaryHeader(flag: bool)
    | Apid(id: Word)
    | SequenceFlags(v: Byte)
    | SequenceCount(count: Word)
    | Length(length: Word)

  // The bit expression of each setter on the word it rewrites.

  function PutVersion(x: Word, v: Byte): Word {
    (x & 0x1FFF) | (((v as Word) & 0x07) << 13)
  }

  function PutType(x: Word, v: Byte): Word {
    (x & 0xEFFF) | (((v as Word) & 0x01) << 12)
  }

  function PutSecondary(x: Word, flag: bool): Word {
    (x & 0xF7FF) | (if flag then 0x0800 else 0x0000)
  }

  function PutApid(x: Word, id: Word): Word {
    (x & 0xF800) | (id & 0x07FF)
  }

  function PutFlags(x: Word, v: Byte): Word {
    (x & 0x3FFF) | (((v as Word) & 0x03) << 14)
  }

  function PutCount(x: Word, count: Word): Word {
    (x & 0xC000) | (count & 0x3FFF)
  }

  function After(h: Header, s: Setter): Header {
    match s
    case Version(v) => h.(packetId := PutVersion(h.packetId, v))
    case Type(v) => h.(packetId := PutType(h.packetId, v))
    case SecondaryHeader(flag) => h.(packetId := PutSecondary(h.packetId, flag))
    case Apid(id) => h.(packetId := PutApid(h.packetId, id))
    case SequenceFlags(v) => h.(sequenceCtrl := PutFlags(h.sequenceCtrl, v))
    case SequenceCount(count) => h.(sequenceCtrl := PutCount(h.sequenceCtrl, count))
    case Length(length) => h.(packetLength := Previous(length))
  }

  function AfterAll(h: Header, setters: seq<Setter>): Header
    decreases |setters|
  {
    if setters == [] then h else AfterAll(After(h, setters[0]), setters[1..])
  }

  // ---------- Fields ----------

  datatype Fields = Fields(version: Word, kind: Word, secondary: Word, apid: Word, flags: Word, count: Word,
                           length: Word)

  /** The top three bits, the two flag bits below them, and the low eleven bits of a packet id. */
  function VersionOf(x: Word): Word {
    x >> 13
  }

  function TypeOf(x: Word): Word {
    (x >> 12) & 0x01
  }

  function SecondaryOf(x: Word): Word {
    (x >> 11) & 0x01
  }

  function ApidOf(x: Word): Word {
    x & 0x07FF
  }

  /** The top two bits and the low fourteen bits of a sequence control word. */
  function FlagsOf(x: Word): Word {
    x >> 14
  }

  function CountOf(x: Word): Word {
    x & 0x3FFF
  }

  function Cut(v: Byte, mask: Word): Word {
    (v as Word) & mask
  }

  function FieldsOf(h: Header): Fields {
    Fields(VersionOf(h.packetId), TypeOf(h.packetId), SecondaryOf(h.packetId), ApidOf(h.packetId),
           FlagsOf(h.sequenceCtrl), CountOf(h.sequenceCtrl), h.packetLength)
  }

  /** The abstract effect of a setter: its own field, cut to the field's width. */
  function Updated(f: Fields, s: Setter): Fields {
    match s
    case Version(v) => f.(version := Cut(v, 7))
    case Type(v) => f.(kind := Cut(v, 1))
    case SecondaryHeader(flag) => f.(secondary := if flag then 1 else 0)
    case Apid(id) => f.(apid := ApidOf(id))
    case SequenceFlags(v) => f.(flags := Cut(v, 3))
    case SequenceCount(count) => f.(count := CountOf(count))
    case Length(length) => f.(length := Previous(length))
  }

  lemma VersionWritten(x: Word, v: Byte)
    ensures var y := PutVersion(x, v);
            && VersionOf(y) == Cut(v, 7) && TypeOf(y) == TypeOf(x)
            && SecondaryOf(y) == SecondaryOf(x) && ApidOf(y) == ApidOf(x)
  {
  }

  lemma TypeWritten(x: Word, v: Byte)
    ensures var y := PutType(x, v);
            && VersionOf(y) == VersionOf(x) && TypeOf(y) == Cut(v, 1)
            && SecondaryOf(y) == SecondaryOf(x) && ApidOf(y) == ApidOf(x)
  {
  }

  lemma SecondaryWritten(x: Word, flag: bool)
    ensures var y := PutSecondary(x, flag);
            && VersionOf(y) == VersionOf(x) && TypeOf(y) == TypeOf(x)
            && SecondaryOf(y) == (if flag then 1 else 0) && ApidOf(y) == ApidOf(x)
  {
  }

  lemma ApidWritten(x: Word, id: Word)
    ensures var y := PutApid(x, id);
            && VersionOf(y) == VersionOf(x) && TypeOf(y) == TypeOf(x)
            && SecondaryOf(y) == SecondaryOf(x) && ApidOf(y) == ApidOf(id)
  {
  }

  lemma FlagsWritten(x: Word, v: Byte)
    ensures FlagsOf(PutFlags(x, v)) == Cut(v, 3) && CountOf(PutFlags(x, v)) == CountOf(x)
  {
  }

  lemma CountWritten(x: Word, count: Word)
    ensures FlagsOf(PutCount(x, count)) == FlagsOf(x) && CountOf(PutCount(x, count)) == CountOf(count)
  {
  }

  /** Every setter writes its own field and no other. */
  lemma SetterWritesItsField(h: Header, s: Setter)
    ensures FieldsOf(After(h, s)) == Updated(FieldsOf(h), s)
  {
    hide PutVersion, PutType, PutSecondary, PutApid, PutFlags, PutCount, Previous;
    hide VersionOf, TypeOf, SecondaryOf, ApidOf, FlagsOf, CountOf, Cut;
    match s
    case Version(v) => VersionWritten(h.packetId, v);
    case Type(v) => TypeWritten(h.packetId, v);
    case SecondaryHeader(flag) => SecondaryWritten(h.packetId, flag);
    case Apid(id) => ApidWritten(h.packetId, id);
    case SequenceFlags(v) => FlagsWritten(h.sequenceCtrl, v);
    case SequenceCount(count) => CountWritten(h.sequenceCtrl, count);
    case Length(_) =>
  }

  /** The fields cover the whole header. */
  lemma FieldsDetermineHeader(h: Header, k: Header)
    requires FieldsOf(h) == FieldsOf(k)
    ensures h == k
  {
  }

  function Kind(s: Setter): nat {
    match s
    case Version(_) => 0
    case Type(_) => 1
    case SecondaryHeader(_) => 2
    case Apid(_) => 3
    case SequenceFlags(_) => 4
    case SequenceCount(_) => 5
    case Length(_) => 6
  }

  ghost predicate DistinctKinds(setters: seq<Setter>) {
    forall i, j :: 0 <= i < j < |setters| ==> Kind(setters[i]) != Kind(setters[j])
  }

  lemma UpdatesCommute(f: Fields, a: Setter, b: Setter)
    requires Kind(a) != Kind(b)
    ensures Updated(Updated(f, a), b) == Updated(Updated(f, b), a)
  {
  }

  lemma SettersCommute(h: Header, a: Setter, b: Setter)
    requires Kind(a) != Kind(b)
    ensures After(After(h, a), b) == After(After(h, b), a)
  {
    hide After, FieldsOf, Updated;
    SetterWritesItsField(h, a);
    SetterWritesItsField(h, b);
    SetterWritesItsField(After(h, a), b);
    SetterWritesItsField(After(h, b), a);
    UpdatesCommute(FieldsOf(h), a, b);
    FieldsDetermineHeader(After(After(h, a), b), After(After(h, b), a));
  }

  /** A setter may be moved to the front past setters of other kinds. */
  lemma {:induction false} MoveToFront(h: Header, setters: seq<Setter>, i: nat)
    requires i < |setters| && DistinctKinds(setters)
    ensures AfterAll(h, setters) == AfterAll(After(h, setters[i]), setters[..i] + setters[i + 1..])
    decreases i
  {
    hide After, Kind;
    if i == 0 {
      assert setters[..0] + setters[1..] == setters[1..];
    } else {
      var first, rest := setters[0], setters[1..];
      assert DistinctKinds(rest);
      MoveToFront(After(h, first), rest, i - 1);
      SettersCommute(h, first, setters[i]);
      var without := setters[..i] + setters[i + 1..];
      assert without[1..] == rest[..i - 1] + rest[i..];
    }
  }

  lemma Find(s: seq<Setter>, x: Setter, bag: multiset<Setter>) returns (i: nat)
    requires x in bag && bag == multiset(s)
    ensures i < |s| && s[i] == x
  {
    assert x in multiset(s);
    i :| 0 <= i < |s| && s[i] == x;
  }

  /** The first setter of one list, found and removed in the other. */
  lemma MatchFirst(a: seq<Setter>, b: seq<Setter>) returns (i: nat)
    requires a != [] && multiset(a) == multiset(b)
    ensures i < |b| && b[i] == a[0]
    ensures multiset(b[..i] + b[i + 1..]) == multiset(a[1..])
  {
    i := Find(b, a[0], multiset(a));
    RemovalFromBag(b, i);
    RemovalFromBag(a, 0);
    assert a[..0] + a[1..] == a[1..];
  }

  lemma EmptyBag(s: seq<Setter>)
    requires multiset(s) == multiset{}
    ensures s == []
  {
    assert |multiset(s)| == |s|;
  }

  /** Setting each field at most once gives the same header words in every order. */
  lemma {:induction false} AnyOrderOfSetters(h: Header, a: seq<Setter>, b: seq<Setter>)
    requires DistinctKinds(a) && DistinctKinds(b) && multiset(a) == multiset(b)
    ensures AfterAll(h, a) == AfterAll(h, b)
    decreases |a|
  {
    hide After, Kind, DistinctKinds;
    if a == [] {
      EmptyBag(b);
    } else {
      var i := MatchFirst(a, b);
      RemovalKeepsDistinct(a, 0);
      assert a[..0] + a[1..] == a[1..];
      RemovalKeepsDistinct(b, i);
      MoveToFront(h, b, i);
      AnyOrderOfSetters(After(h, a[0]), a[1..], b[..i] + b[i + 1..]);
    }
  }

  lemma RemovalFromBag(s: seq<Setter>, i: nat)
    requires i < |s|
    ensures multiset(s[..i] + s[i + 1..]) == multiset(s) - multiset{s[i]}
  {
    assert s == s[..i] + ([s[i]] + s[i + 1..]);
  }

  lemma RemovalKeepsDistinct(s: seq<Setter>, i: nat)
    requires i < |s| && DistinctKinds(s)
    ensures DistinctKinds(s[..i] + s[i + 1..])
  {
  }

  // ---------- Byte order ----------

  function Swapped(x: Word): Word {
    ((x & 0xFF00) >> 8) | ((x & 0x00FF) << 8)
  }

  function NetworkOrder(h: Header): Header {
    Header(Swapped(h.packetId), Swapped(h.sequenceCtrl), Swapped(h.packetLength))
  }

  lemma NetworkOrderTwice(h: Header)
    ensures NetworkOrder(NetworkOrder(h)) == h
  {
  }

  /** The memory image of a header on a little-endian host. */
  function Image(h: Header): (bytes: seq<Byte>)
    ensures |bytes| == 6
  {
    [LowByte(h.packetId), HighByte(h.packetId),
     LowByte(h.sequenceCtrl), HighByte(h.sequenceCtrl),
     LowByte(h.packetLength), HighByte(h.packetLength)]
  }

  /** Words of a received header, most significant byte first. */
  function Received(raw: seq<Byte>): Header
    requires |raw| >= 6
  {
    Header(Join(raw[0], raw[1]), Join(raw[2], raw[3]), Join(raw[4], raw[5]))
  }

  /** The image of a header in network order reads back as the header. */
  lemma ReceivedImage(h: Header, rest: seq<Byte>)
    ensures Received(Image(NetworkOrder(h)) + rest) == h
  {
  }

  // ---------- Packets ----------

  /** The header both senders build: a standalone packet. */
  function Sent(kind: Byte, secondary: bool, apid: Word, count: Word, length: Word): Header {
    AfterAll(Header(0, 0, 0),
             [Version(0), Type(kind), SecondaryHeader(secondary), Apid(apid), SequenceFlags(3), SequenceCount(count),
              Length(length)])
  }

  lemma SentFields(kind: Byte, secondary: bool, apid: Word, count: Word, length: Word)
    ensures FieldsOf(Sent(kind, secondary, apid, count, length)) ==
            Fields(0, Cut(kind, 1), if secondary then 1 else 0, ApidOf(apid), 3, CountOf(count), Previous(length))
  {
    Constants();
    hide After, FieldsOf, AfterAll, Cut, ApidOf, CountOf, Previous;
    var h0 := Header(0, 0, 0);
    var h1 := After(h0, Version(0));
    var h2 := After(h1, Type(kind));
    var h3 := After(h2, SecondaryHeader(secondary));
    var h4 := After(h3, Apid(apid));
    var h5 := After(h4, SequenceFlags(3));
    var h6 := After(h5, SequenceCount(count));
    SetterWritesItsField(h0, Version(0));
    SetterWritesItsField(h1, Type(kind));
    SetterWritesItsField(h2, SecondaryHeader(secondary));
    SetterWritesItsField(h3, Apid(apid));
    SetterWritesItsField(h4, SequenceFlags(3));
    SetterWritesItsField(h5, SequenceCount(count));
    SetterWritesItsField(h6, Length(length));
    AfterSeven(h0, Version(0), Type(kind), SecondaryHeader(secondary), Apid(apid), SequenceFlags(3),
               SequenceCount(count), Length(length));
  }

  lemma Constants()
    ensures Cut(0, 7) == 0 && Cut(3, 3) == 3
  {
  }

  lemma AfterOne(h: Header, s: Setter, rest: seq<Setter>)
    ensures AfterAll(h, [s] + rest) == AfterAll(After(h, s), rest)
  {
    assert ([s] + rest)[1..] == rest;
  }

  lemma AfterFour(h: Header, a: Setter, b: Setter, c: Setter, d: Setter, rest: seq<Setter>)
    ensures AfterAll(h, [a, b, c, d] + rest) == AfterAll(After(After(After(After(h, a), b), c), d), rest)
  {
    hide After, AfterAll;
    assert [a, b, c, d] + rest == [a] + ([b] + ([c] + ([d] + rest)));
    AfterOne(h, a, [b] + ([c] + ([d] + rest)));
    AfterOne(After(h, a), b, [c] + ([d] + rest));
    AfterOne(After(After(h, a), b), c, [d] + rest);
    AfterOne(After(After(After(h, a), b), c), d, rest);
  }

  lemma AfterSeven(h: Header, a: Setter, b: Setter, c: Setter, d: Setter, e: Setter, f: Setter, g: Setter)
    ensures AfterAll(h, [a, b, c, d, e, f, g])
         == After(After(After(After(After(After(After(h, a), b), c), d), e), f), g)
  {
    hide After, AfterAll;
    var k := After(After(After(After(h, a), b), c), d);
    assert [a, b, c, d, e, f, g] == [a, b, c, d] + ([e] + ([f] + ([g] + [])));
    AfterFour(h, a, b, c, d, [e] + ([f] + ([g] + [])));
    AfterOne(k, e, [f] + ([g] + []));
    AfterOne(After(k, e), f, [g] + []);
    AfterOne(After(After(k, e), f), g, []);
    AfterNone(After(After(After(k, e), f), g));
  }

  lemma AfterNone(h: Header)
    ensures AfterAll(h, []) == h
  {
  }

  /** The stored length is the total size less one, modulo the width of the field. */
  lemma StoredLength(kind: Byte, secondary: bool, apid: Word, count: Word, total: nat)
    requires total > 0
    ensures Value(Sent(kind, secondary, apid, count, FromNat(total)).packetLength) == (total - 1) % 65536
  {
    hide Value, Previous, FromNat, Sent, VersionOf, TypeOf, SecondaryOf, ApidOf, FlagsOf, CountOf;
    SentFields(kind, secondary, apid, count, FromNat(total));
    ValueOfFromNat(total);
    ZeroValue(FromNat(total));
    if FromNat(total) == 0 {
      LengthOfNothing();
    } else {
      ValueOfPrevious(FromNat(total));
    }
  }

  lemma LengthOfNothing()
    ensures Value(Previous(0)) == 65535
  {
    assert Previous(0) == 0xFFFF;
    FullValue(0xFFFF);
  }

  lemma ApidIsMasked(apid: Word)
    ensures ApidOf(apid) == Masked(apid, 0x07FF)
  {
  }

  lemma CountIsMasked(count: Word)
    ensures CountOf(count) == Masked(count, 0x3FFF)
  {
  }

  /** The fourteen bits of the count field show a 16-bit counter modulo 16384. */
  lemma CountField(count: Word, uses: nat)
    requires Value(count) == uses % 65536
    ensures Value(CountOf(count)) == uses % 16384
  {
    hide Value, Masked, CountOf, Pow2;
    CountIsMasked(count);
    LowMasks();
    Powers();
    MaskIsRemainder(count, 14);
    RemainderOfRemainder(uses);
  }

  // ---------- The six bytes on the wire ----------

  lemma PacketIdBytes(x: Word, kind: Byte, secondary: bool, apid: Word)
    requires VersionOf(x) == 0 && TypeOf(x) == Cut(kind, 1) && ApidOf(x) == ApidOf(apid)
    requires SecondaryOf(x) == if secondary then 1 else 0
    ensures HighByte(x) == ((kind & 1) << 4) | (if secondary then 8 else 0) | ((((apid >> 8) & 7)) as Byte)
    ensures LowByte(x) == (apid & 0xFF) as Byte
  {
  }

  lemma SequenceBytes(x: Word, count: Word)
    requires FlagsOf(x) == 3 && CountOf(x) == CountOf(count)
    ensures HighByte(x) == 0xC0 | (((count >> 8) & 0x3F) as Byte) && LowByte(x) == (count & 0xFF) as Byte
  {
  }

  lemma SwappedBytes(x: Word)
    ensures LowByte(Swapped(x)) == HighByte(x) && HighByte(Swapped(x)) == LowByte(x)
  {
  }

  /** The header as it is sent: version 0 and the type, flag and high APID bits, the low APID bits, the flags 11
      with the fourteen bits of the count, and the length. */
  lemma HeaderOnTheWire(kind: Byte, secondary: bool, apid: Word, count: Word, length: Word)
    ensures var b := Image(NetworkOrder(Sent(kind, secondary, apid, count, length)));
            && b[0] == ((kind & 1) << 4) | (if secondary then 8 else 0) | ((((apid >> 8) & 7)) as Byte)
            && b[1] == (apid & 0xFF) as Byte
            && b[2] == 0xC0 | (((count >> 8) & 0x3F) as Byte)
            && b[3] == (count & 0xFF) as Byte
            && b[4] == HighByte(length - 1)
            && b[5] == LowByte(length - 1)
  {
    var h := Sent(kind, secondary, apid, count, length);
    SentFields(kind, secondary, apid, count, length);
    hide Sent, VersionOf, TypeOf, SecondaryOf, ApidOf, FlagsOf, CountOf, Cut, Swapped, LowByte, HighByte;
    PacketIdBytes(h.packetId, kind, secondary, apid);
    SequenceBytes(h.sequenceCtrl, count);
    SwappedBytes(h.packetId);
    SwappedBytes(h.sequenceCtrl);
    SwappedBytes(h.packetLength);
  }

  lemma RemainderOfRemainder(n: nat)
    ensures (n % 65536) % 16384 == n % 16384
  {
  }

  class CCSDSHeader {
    var packetId: Word
    var sequenceCtrl: Word
    var packetLength: Word

    function Contents(): Header
      reads this
    {
      Header(packetId, sequenceCtrl, packetLength)
    }

    constructor ()
      ensures Contents() == Header(0, 0, 0)
    {
      packetId, sequenceCtrl, packetLength := 0, 0, 0;
    }

    method SetVersion(version: Byte)
      modifies this
      ensures Contents() == After(old(Contents()), Version(version))
    {
      packetId := (packetId & 0x1FFF) | (((version as Word) & 0x07) << 13);
    }

    method SetType(kind: Byte)
      modifies this
      ensures Contents() == After(old(Contents()), Type(kind))
    {
      packetId := (packetId & 0xEFFF) | (((kind as Word) & 0x01) << 12);
    }

    method SetSecondaryHeaderFlag(flag: bool)
      modifies this
      ensures Contents() == After(old(Contents()), SecondaryHeader(flag))
    {
      packetId := (packetId & 0xF7FF) | (if flag then 0x0800 else 0x0000);
    }

    method SetAPID(apid: Word)
      modifies this
      ensures Contents() == After(old(Contents()), Apid(apid))
    {
      packetId := (packetId & 0xF800) | (apid & 0x07FF);
    }

    method SetSequenceFlags(flags: Byte)
      modifies this
      ensures Contents() == After(old(Contents()), SequenceFlags(flags))
    {
      sequenceCtrl := (sequenceCtrl & 0x3FFF) | (((flags as Word) & 0x03) << 14);
    }

    method SetSequenceCount(count: Word)
      modifies this
      ensures Contents() == After(old(Contents()), SequenceCount(count))
    {
      sequenceCtrl := (sequenceCtrl & 0xC000) | (count & 0x3FFF);
    }

    method SetLength(length: Word)
      modifies this
      ensures Contents() == After(old(Contents()), Length(length))
    {
      packetLength := length - 1;
    }

    method ToNetworkOrder()
      modifies this
      ensures Contents() == NetworkOrder(old(Contents()))
    {
      packetId := ((packetId & 0xFF00) >> 8) | ((packetId & 0x00FF) << 8);
      sequenceCtrl := ((sequenceCtrl & 0xFF00) >> 8) | ((sequenceCtrl & 0x00FF) << 8);
      packetLength := ((packetLength & 0xFF00) >> 8) | ((packetLength & 0x00FF) << 8);
    }
  }

  /** The common part of both senders: every field set once, then network order. */
  method Build(kind: Byte, secondary: bool, apid: Word, count: Word, length: Word) returns (header: CCSDSHeader)
    ensures fresh(header)
    ensures header.Contents() == NetworkOrder(Sent(kind, secondary, apid, count, length))
  {
    hide After, Swapped;
    header := new CCSDSHeader();
    header.SetVersion(0);
    header.SetType(kind);
    header.SetSecondaryHeaderFlag(secondary);
    header.SetAPID(apid);
    header.SetSequenceFlags(0x03);
    header.SetSequenceCount(count);
    header.SetLength(length);
    AfterSeven(Header(0, 0, 0), Version(0), Type(kind), SecondaryHeader(secondary), Apid(apid), SequenceFlags(3),
               SequenceCount(count), Length(length));
    header.ToNetworkOrder();
  }

  /** The byte-swap loop that both senders and the ground decoder share. */
  method Swap(bytes: seq<Byte>) returns (r: seq<Byte>)
    requires |bytes| == 8
    ensures r == Reversed(bytes)
  {
    var temp := new Byte[8](i requires 0 <= i < 8 => bytes[i]);
    for i := 0 to 4
      invariant forall k :: 0 <= k < i ==> temp[k] == bytes[7 - k] && temp[7 - k] == bytes[k]
      invariant forall k :: i <= k < 8 - i ==> temp[k] == bytes[k]
    {
      temp[i], temp[7 - i] := temp[7 - i], temp[i];
    }
    r := temp[..];
  }

  /** Appends a double in network order to a buffer that already holds some. */
  method AppendDouble(buffer: seq<Byte>, value: Double, ghost head: seq<Byte>, ghost ds: seq<Double>)
    returns (longer: seq<Byte>)
    requires buffer == head + BigEndian(ds)
    ensures longer == head + BigEndian(ds + [value])
  {
    hide Reversed, BigEndian;
    var temp := Swap(value);
    longer := buffer + temp;
    BigEndianAppend(ds, value);
    assert longer == head + (BigEndian(ds) + Reversed(value));
  }
}
