/** The bytes of a STUN message one by one, as sections 6 and 15 of RFC 5389 lay them out: whoever reads them by
    that layout finds what was sent. */
module StunLayout {
  import opened Common
  import opened WireFormat
  import opened StunFormat

  // ----- values -----

  /** XOR addresses go out with their port and address masked by the magic cookie, and are unmasked when read. */
  lemma {:induction false} XorAddressLayout(t: nat, port: bv16, ip: bv32)
    requires t in {0x0012, 0x0016, 0x0020, 0x8020}
    ensures WellTyped(t, Address(port, ip))
    ensures Body(t, Address(port, ip))
         == [0, 1] + BigEndian(2, (port ^ 0x2112) as int) + BigEndian(4, (ip ^ 0x2112_A442) as int)
  {
    assert KindOf(t) == Some(XorAddress);
    CookieMasks(port, ip);
    hide BigEndian, Masked, KindOf;
    var p, q := port ^ 0x2112, ip ^ 0x2112_A442;
    assert Body(t, Address(port, ip)) == AddressBytes(p, q);
  }

  /** An IPv6 address takes twenty bytes, with family 2 and, for an XOR address, its port masked; the reader refuses
      it (`OtherAddressRefused`). */
  lemma {:induction false} Address6Layout(t: nat, port: bv16, wire: seq<byte>)
    requires |wire| == 16
    ensures t in {0x0012, 0x0016, 0x0020, 0x8020} ==>
              WellTyped(t, Address6(port, wire))
              && Body(t, Address6(port, wire)) == [0, 2] + BigEndian(2, (port ^ 0x2112) as int) + wire
    ensures t in {0x0001, 0x0002, 0x0004, 0x0005, 0x000B, 0x000E, 0x0011, 0x8023, 0x8050} ==>
              WellTyped(t, Address6(port, wire))
              && Body(t, Address6(port, wire)) == [0, 2] + BigEndian(2, port as int) + wire
  {
    assert t in {0x0012, 0x0016, 0x0020, 0x8020} ==> KindOf(t) == Some(XorAddress);
    CookieMasks6(port, wire);
    hide BigEndian, Masked;
  }

  lemma {:induction false} CookieMasks6(port: bv16, wire: seq<byte>)
    ensures Masked(Address6(port, wire)) == Address6(port ^ 0x2112, wire)
  {
  }

  lemma {:induction false} CookieMasks(port: bv16, ip: bv32)
    ensures Masked(Address(port, ip)) == Address(port ^ 0x2112, ip ^ 0x2112_A442)
  {
  }

  /** Other addresses go out as they stand. */
  lemma {:induction false} AddressLayout(t: nat, port: bv16, ip: bv32)
    requires t in {0x0001, 0x0002, 0x0004, 0x0005, 0x000B, 0x000E, 0x0011, 0x8023, 0x8050}
    ensures WellTyped(t, Address(port, ip))
    ensures Body(t, Address(port, ip)) == [0, 1] + BigEndian(2, port as int) + BigEndian(4, ip as int)
  {
    hide BigEndian;
  }

  /** What the reader makes of the port and address that any peer has sent, whatever the first byte. */
  lemma {:induction false} AddressRead(pad: byte, port: bv16, ip: bv32)
    ensures var b := [pad, 1] + BigEndian(2, port as int) + BigEndian(4, ip as int);
            && ParseValue(PlainAddress, b) == Some(Address(port, ip))
            && ParseValue(XorAddress, b) == Some(Address(port ^ 0x2112, ip ^ 0x2112_A442))
  {
    BitsBack(port, ip);
    CookieMasks(port, ip);
    hide BigEndian, FromBigEndian, Bits16, Bits32, Masked;
    var b := [pad, 1] + BigEndian(2, port as int) + BigEndian(4, ip as int);
    assert b[2..4] == BigEndian(2, port as int) && b[4..8] == BigEndian(4, ip as int);
  }

  /** An address of any other size or family is refused. */
  lemma {:induction false} OtherAddressRefused(b: seq<byte>)
    requires |b| != 8 || b[1] != 1
    ensures ParseValue(PlainAddress, b).None? && ParseValue(XorAddress, b).None?
  {
  }

  lemma {:induction false} MaskedExample()
    ensures ((32853 as bv16) ^ 0x2112) as int == 0xA147
    ensures ((0xC000_0201 as bv32) ^ 0x2112_A442) as int == 0xE112_A643
  {
  }

  /** The example of section 2.2 of RFC 5769: 192.0.2.1, port 32853. */
  lemma {:induction false} AddressOfRfc5769()
    ensures WellTyped(0x0020, Address(32853, 0xC000_0201))
    ensures Body(0x0020, Address(32853, 0xC000_0201)) == [0x00, 0x01, 0xA1, 0x47, 0xE1, 0x12, 0xA6, 0x43]
  {
    hide BigEndian, Body, KindOf;
    XorAddressLayout(0x0020, 32853, 0xC000_0201);
    MaskedExample();
    TwoBytes(0xA147);
    FourBytes(0xE112_A643);
  }

  /** Numbers: four bytes; a channel number in the first two; properties and a transport in the first. */
  lemma {:induction false} NumberLayout(t: nat, n: nat)
    ensures t in {0x0003, 0x000D, 0x000F, 0x0010, 0x0023, 0x8024} && n < 0x1_0000_0000 ==>
              WellTyped(t, Number(n)) && Body(t, Number(n)) == [n / 0x100_0000, n / 0x1_0000 % 256, n / 256 % 256, n % 256]
    ensures t == 0x000C && n < 0x1_0000 ==>
              WellTyped(t, Number(n)) && Body(t, Number(n)) == [n / 256, n % 256, 0, 0]
    ensures t in {0x0018, 0x0019} && n < 0x100 ==>
              WellTyped(t, Number(n)) && Body(t, Number(n)) == [n, 0, 0, 0]
  {
    hide BigEndian, KindOf;
    KindOfNumber(t);
    if t == 0x000C && n < 0x1_0000 {
      ShiftedTwo(n);
    } else if t in {0x0018, 0x0019} && n < 0x100 {
      ShiftedThree(n);
    } else {
      FourBytes(n);
    }
  }

  lemma {:induction false} KindOfNumber(t: nat)
    ensures t in {0x0003, 0x000D, 0x000F, 0x0010, 0x0023, 0x8024} ==> KindOf(t) == Some(Word32)
    ensures KindOf(0x000C) == Some(Channel) && KindOf(0x0018) == Some(Props) && KindOf(0x0019) == Some(Transport)
  {
  }

  lemma {:induction false} Shifted(m: nat, n: nat)
    ensures BigEndian(m + 1, n * 256) == BigEndian(m, n) + [0]
  {
  }

  lemma {:induction false} ShiftedTwo(n: nat)
    requires n < 0x1_0000
    ensures BigEndian(4, n * 0x1_0000) == [n / 256, n % 256, 0, 0]
  {
    hide BigEndian;
    Shifted(3, n * 256);
    Shifted(2, n);
    TwoBytes(n);
    assert n * 0x1_0000 == n * 256 * 256 && n / 256 % 256 == n / 256;
  }

  lemma {:induction false} ShiftedThree(n: nat)
    requires n < 0x100
    ensures BigEndian(4, n * 0x100_0000) == [n, 0, 0, 0]
  {
    hide BigEndian;
    Shifted(3, n * 0x1_0000);
    Shifted(2, n * 256);
    Shifted(1, n);
    assert BigEndian(1, n) == [n] by { OneByte(n); }
  }

  lemma {:induction false} OneByte(n: nat)
    requires n < 0x100
    ensures BigEndian(1, n) == [n]
  {
  }

  /** `b` with as many zeros as make its size a multiple of four. */
  ghost predicate FilledUp(f: seq<byte>, b: seq<byte>) {
    b <= f && |f| % 4 == 0 && |f| < |b| + 4 && forall i :: |b| <= i < |f| ==> f[i] == 0
  }

  lemma {:induction false} ZerosAreZero(n: nat)
    ensures forall i :: 0 <= i < n ==> Zeros(n)[i] == 0
  {
    if n > 0 {
      ZerosAreZero(n - 1);
    }
  }

  lemma {:induction false} ZerosFillUp(b: seq<byte>)
    ensures FilledUp(b + Zeros(PadOf(|b|)), b)
  {
    ZerosAreZero(PadOf(|b|));
    hide Zeros;
  }

  lemma {:induction false} KindOfText(t: nat)
    ensures t in {0x0006, 0x0007, 0x0014, 0x0015, 0x8022} ==> KindOf(t) == Some(Text)
    ensures KindOf(0x0013) == Some(Payload) && KindOf(0x0022) == Some(Token) && KindOf(0x0009) == Some(ErrorCode)
  {
  }

  /** Text is filled up with zeros; data and tokens are not; an error is two zeros, its class and number, and the
      reason filled up with zeros. */
  lemma {:induction false} TextLayout(t: nat, a: Attr)
    requires WellTyped(t, a)
    ensures t in {0x0006, 0x0007, 0x0014, 0x0015, 0x8022} ==> a.Bytes? && FilledUp(Body(t, a), a.b)
    ensures t in {0x0013, 0x0022} ==> a.Bytes? && Body(t, a) == a.b
    ensures t == 0x0009 ==>
              a.Failure? && |Body(t, a)| >= 4 && Body(t, a)[..4] == [0, 0, a.errorClass, a.number]
              && FilledUp(Body(t, a)[4..], a.reason)
  {
    hide BigEndian, AnyAddressBytes, TypesBytes, Zeros, KindOf, PadOf;
    KindOfText(t);
    if t in {0x0006, 0x0007, 0x0014, 0x0015, 0x8022} {
      ZerosFillUp(a.b);
    } else if t == 0x0009 {
      ZerosFillUp(a.reason);
      assert Body(t, a)[4..] == a.reason + Zeros(PadOf(|a.reason|));
    }
  }

  /** Which sizes of a value the reader accepts. */
  lemma {:induction false} SizesRead(b: seq<byte>)
    ensures ParseValue(PlainAddress, b).Some? <==> |b| == 8 && b[1] == 1
    ensures ParseValue(XorAddress, b).Some? <==> |b| == 8 && b[1] == 1
    ensures forall k :: k in {Word32, Channel, Transport, Props, Fingerprint} ==> (ParseValue(k, b).Some? <==> |b| == 4)
    ensures ParseValue(Token, b).Some? <==> |b| == 8
    ensures ParseValue(Integrity, b).Some? <==> |b| == 20
    ensures ParseValue(ErrorCode, b).Some? <==> |b| >= 4
    ensures ParseValue(Text, b) == ParseValue(Payload, b) == Some(Bytes(b))
  {
    hide FromBigEndian, Bits16, Bits32, Masked, ParseTypes;
  }

  /** The bytes skipped behind a value are what the buffer held there, and zeros beyond its end. */
  lemma {:induction false} SkippedBytes(junk: seq<byte>, pos: nat, n: nat, i: nat)
    requires i < n
    ensures Left(junk, pos, n)[i] == if pos + i < |junk| then junk[pos + i] else 0
    decreases n
  {
    if i > 0 {
      SkippedBytes(junk, pos + 1, n - 1, i - 1);
    }
  }

  // ----- types -----

  /** The types that the reader knows; the others it skips if their number says that it may, and refuses the message
      otherwise. */
  const KNOWN: set<nat> :=
    {0x0001, 0x0002, 0x0003, 0x0004, 0x0005, 0x0006, 0x0007, 0x0008, 0x0009, 0x000A, 0x000B, 0x000C, 0x000D, 0x000E, 0x000F,
      0x0010, 0x0011, 0x0012, 0x0013, 0x0014, 0x0015, 0x0016, 0x0018, 0x0019, 0x0020, 0x0022, 0x0023, 0x8020, 0x8022, 0x8023,
      0x8024, 0x8028, 0x8050}

  lemma {:induction false} KnownExactly(t: nat)
    ensures KindOf(t).Some? <==> t in KNOWN
  {
  }

  lemma {:induction false} UnknownTypes(m: Message, bs: seq<byte>)
    requires AttrSize(bs).Some? && FromBigEndian(bs[..2]) !in KNOWN
    ensures ParseOne(m, bs) == if FromBigEndian(bs[..2]) < 0x8000 then None else Some(m)
  {
    KnownExactly(FromBigEndian(bs[..2]));
    hide KindOf, FromBigEndian;
  }

  /** A mapped address of the old type is taken for one of the new. */
  lemma {:induction false} OldMappedAddress(m: Message, a: Attr)
    ensures KindOf(0x8020) == KindOf(0x0020) == Some(XorAddress)
    ensures Store(m, 0x8020, XorAddress, a) == Store(m, 0x0020, XorAddress, a) == m.(attrs := m.attrs[0x0020 := a])
  {
  }

  /** A list of up to eight unknown attributes is written with two bytes for each, and its length says two more. */
  lemma {:induction false} UnknownListLayout(ts: seq<nat>)
    requires |ts| <= 8
    ensures WellTyped(0x000A, Types(ts)) && Body(0x000A, Types(ts)) == TypesBytes(ts)
    ensures AttrBytes(0x000A, TypesBytes(ts), []) == [0, 10] + [0, 2 * |ts| + 2] + TypesBytes(ts)
    ensures forall i :: 0 <= i < |ts| ==> TypesBytes(ts)[2 * i..2 * i + 2] == BigEndian(2, ts[i])
  {
    TwoBytes(0x000A);
    TwoBytes(2 * |ts| + 2);
    TypesInOrder(ts);
    hide BigEndian;
  }

  lemma {:induction false} TypesInOrder(ts: seq<nat>)
    ensures forall i :: 0 <= i < |ts| ==> TypesBytes(ts)[2 * i..2 * i + 2] == BigEndian(2, ts[i])
  {
    hide BigEndian;
    if ts != [] {
      TypesInOrder(ts[1..]);
      var rest := TypesBytes(ts[1..]);
      forall i | 0 <= i < |ts|
        ensures TypesBytes(ts)[2 * i..2 * i + 2] == BigEndian(2, ts[i])
      {
        if i > 0 {
          assert TypesBytes(ts)[2 * i..2 * i + 2] == rest[2 * (i - 1)..2 * (i - 1) + 2];
        }
      }
    }
  }

  /** One is read as if each took four bytes, up to four of them, and refused at any other size. */
  lemma {:induction false} UnknownListRead(b: seq<byte>)
    ensures ParseValue(UnknownList, b)
         == if |b| in {0, 4, 8, 12, 16} then Some(Types(ParseTypes(b, |b| / 4))) else None
  {
    hide FromBigEndian, ParseTypes;
  }

  // ----- attributes, one after the other -----

  datatype Record = Record(t: nat, value: seq<byte>)

  function Word(high: byte, low: byte): nat {
    high as nat * 256 + low as nat
  }

  /** The next multiple of four. */
  function Rounded(n: nat): (m: nat)
    ensures m >= n
  {
    (n + 3) / 4 * 4
  }

  /** The attributes as anyone reads them: type and length in two bytes each, the value, and what fills it up to a
      multiple of four. */
  function Records(bs: seq<byte>): Option<seq<Record>>
    decreases |bs|
  {
    if bs == [] then Some([])
    else if |bs| < 4 then None
    else
      var t, n := Word(bs[0], bs[1]), Word(bs[2], bs[3]);
      var size := 4 + Rounded(n);
      if |bs| < size then None
      else
        match Records(bs[size..])
        case None => None
        case Some(rs) => Some([Record(t, bs[4..4 + n])] + rs)
  }

  lemma {:induction false} WordOf(n: nat)
    requires n < 0x1_0000
    ensures Word(BigEndian(2, n)[0], BigEndian(2, n)[1]) == n
  {
    TwoBytes(n);
    hide BigEndian;
  }

  lemma {:induction false} PadIsRest(n: nat)
    ensures Rounded(n) == n + PadOf(n)
  {
  }

  lemma {:induction false} OneRecord(head: seq<byte>, body: seq<byte>, pad: seq<byte>, rest: seq<byte>)
    requires |head| == 4 && Word(head[2], head[3]) == |body| && Rounded(|body|) == |body| + |pad|
    ensures Records(head + body + pad + rest)
         == match Records(rest)
            case None => None
            case Some(rs) => Some([Record(Word(head[0], head[1]), body)] + rs)
  {
    hide Word, Rounded;
    var bs, size := head + body + pad + rest, 4 + |body| + |pad|;
    assert bs[0] == head[0] && bs[1] == head[1] && bs[2] == head[2] && bs[3] == head[3];
    assert bs[4..4 + |body|] == body;
    assert bs[size..] == rest;
    assert |bs| >= size >= 4;
  }

  lemma {:induction false} RecordFirst(t: nat, body: seq<byte>, pad: seq<byte>, rest: seq<byte>)
    requires t < 0x1_0000 && |body| < 0x1_0000 && |pad| == PadOf(|body|) && t != UNKNOWN_ATTRIBUTES
    ensures Records(AttrBytes(t, body, pad) + rest)
         == match Records(rest)
            case None => None
            case Some(rs) => Some([Record(t, body)] + rs)
  {
    WordOf(t);
    WordOf(|body|);
    PadIsRest(|body|);
    hide BigEndian, Word, PadOf, Rounded, Records;
    OneRecord(BigEndian(2, t) + BigEndian(2, |body|), body, pad, rest);
  }

  /** The attributes that are present, in the order of writing. */
  function Listed(order: seq<nat>, attrs: map<nat, Attr>): seq<Record>
    requires StunFormat.AllTyped(attrs)
  {
    if order == [] then []
    else (if order[0] in attrs then [Record(order[0], Body(order[0], attrs[order[0]]))] else []) + Listed(order[1..], attrs)
  }

  lemma {:induction false} RecordsOfAttrs(order: seq<nat>, attrs: map<nat, Attr>, junk: seq<byte>, pos: nat, rest: seq<byte>)
    requires StunFormat.AllTyped(attrs) && AllReadable(attrs) && |AttrsBytes(order, attrs, junk, pos)| < 0x1_0000
    ensures Records(AttrsBytes(order, attrs, junk, pos) + rest)
         == match Records(rest)
            case None => None
            case Some(rs) => Some(Listed(order, attrs) + rs)
    decreases |order|
  {
    hide Records, Body, AttrBytes, WellTyped, KindOf, Left, PadOf;
    if order == [] {
      assert [] + rest == rest;
      assert Records(rest).Some? ==> [] + Records(rest).value == Records(rest).value;
    } else if order[0] !in attrs {
      RecordsOfAttrs(order[1..], attrs, junk, pos, rest);
      assert [] + Listed(order[1..], attrs) == Listed(order[1..], attrs);
    } else {
      var t := order[0];
      KindOfField(t, attrs[t]);
      ReadableType(t, attrs[t]);
      var body := Body(t, attrs[t]);
      var pad := Left(junk, pos + 4 + |body|, SkipOf(t, |body|));
      AttrBytesSize(t, body, pad);
      var one := AttrBytes(t, body, pad);
      var more := AttrsBytes(order[1..], attrs, junk, pos + |one|);
      RecordFirst(t, body, pad, more + rest);
      assert one + more + rest == one + (more + rest);
      RecordsOfAttrs(order[1..], attrs, junk, pos + |one|, rest);
      if Records(rest).Some? {
        assert [Record(t, body)] + (Listed(order[1..], attrs) + Records(rest).value)
            == [Record(t, body)] + Listed(order[1..], attrs) + Records(rest).value;
      }
    }
  }

  // ----- whole messages -----

  /** `z` is `b` with as many zeros as make its size a multiple of 64. */
  ghost predicate FilledTo64(z: seq<byte>, b: seq<byte>) {
    b <= z && |z| % 64 == 0 && |z| < |b| + 64 && forall i :: |b| <= i < |z| ==> z[i] == 0
  }

  /** What is hashed is filled up with zeros to blocks of 64 bytes. */
  lemma {:induction false} BlocksAreFilled(b: seq<byte>)
    ensures FilledTo64(ToBlocks(b), b)
  {
    ZerosAreZero(if |b| % 64 == 0 then 0 else 64 - |b| % 64);
    hide Zeros;
  }

  /** The records at the end: the keyed hash of what stands before it, filled up with zeros to blocks of 64 bytes, and
      the checksum of all that stands before that. */
  function Trailing(m: Message, mac: seq<byte>, sum: nat): seq<Record> {
    (if m.integrity.Some? then [Record(0x0008, mac)] else [])
    + (if m.fingerprint.Some? then [Record(0x8028, BigEndian(4, sum))] else [])
  }

  lemma {:induction false} RecordsOfTrailer(c: Crypto, key: seq<byte>, order: seq<nat>, m: Message, junk: seq<byte>)
    requires CryptoOk(c) && StunFormat.AllTyped(m.attrs)
    ensures Records(Trailer(c, key, order, m, junk))
         == Some(Trailing(m, Mac(c, key, Prefix(order, m, junk)), c.crc(Signed(c, key, order, m, junk))))
  {
    hide AttrBytes, Signed, Prefix, Mac, BigEndian, WellTyped, Records;
    var mac, sum := Mac(c, key, Prefix(order, m, junk)), c.crc(Signed(c, key, order, m, junk));
    MacSize(c, key, Prefix(order, m, junk));
    var second := if m.fingerprint.Some? then AttrBytes(FINGERPRINT, BigEndian(4, sum), []) else [];
    NoRecords();
    if m.fingerprint.Some? {
      RecordFirst(FINGERPRINT, BigEndian(4, sum), [], []);
      assert second + [] == second;
      assert [Record(FINGERPRINT, BigEndian(4, sum))] + [] == [Record(0x8028, BigEndian(4, sum))];
    }
    assert Records(second) == Some(if m.fingerprint.Some? then [Record(0x8028, BigEndian(4, sum))] else []);
    if m.integrity.Some? {
      RecordFirst(INTEGRITY, mac, [], second);
    } else {
      assert [] + second == second && [] + Records(second).value == Records(second).value;
    }
  }

  lemma {:induction false} NoRecords()
    ensures Records([]) == Some([])
  {
  }

  /** An encoded message that fits, read by the layout alone: class and method, the size of what follows, the
      transaction, the attributes in the order of the source, and the hash and checksum of what stands before them. */
  lemma {:induction false} MessageLayout(c: Crypto, key: seq<byte>, m: Message, junk: seq<byte>)
    requires CryptoOk(c) && Encodable(m) && AllReadable(m.attrs)
    requires SizeOf(m, AttrsBytes(Order(), m.attrs, junk, 20)) < 0x1_0000
    ensures var buf := Encoded(c, key, Order(), m, junk);
            |buf| >= 20 && Word(buf[0], buf[1]) == m.class_ + m.tm && Word(buf[2], buf[3]) == |buf| - 20 && buf[4..20] == m.id
    ensures var buf := Encoded(c, key, Order(), m, junk);
            var end := |buf| - (if m.fingerprint.Some? then 8 else 0);
            var start := end - (if m.integrity.Some? then 24 else 0);
            20 <= start <= end <= |buf|
            && Records(buf[20..])
            == Some(Listed(Order(), m.attrs) + Trailing(m, c.hmac(key, ToBlocks(buf[..start])), c.crc(buf[..end])))
  {
    hide Header, AttrsBytes, Trailer, Encoded, Prefix, Signed, WellTyped, Records, Listed, Order, Trailing, ToBlocks, Word, StunFormat.AllTyped,
      CryptoOk;
    var attrs := AttrsBytes(Order(), m.attrs, junk, 20);
    var size, trailer := SizeOf(m, attrs), Trailer(c, key, Order(), m, junk);
    var prefix, buf := Prefix(Order(), m, junk), Encoded(c, key, Order(), m, junk);
    EncodedParts(c, key, Order(), m, junk);
    TrailerSize(c, key, Order(), m, junk);
    PrefixParts(Order(), m, junk);
    assert prefix + trailer == Header(m, size) + (attrs + trailer);
    HeaderLayout(m, size, attrs + trailer);
    SignedFront(c, key, m, junk);
    RecordsOfTrailer(c, key, Order(), m, junk);
    RecordsOfAttrs(Order(), m.attrs, junk, 20, trailer);
    HeaderLayout(m, size, attrs);
    assert buf[..|prefix|] == prefix;
  }

  lemma {:induction false} HeaderLayout(m: Message, size: nat, rest: seq<byte>)
    requires Encodable(m) && size < 0x1_0000
    ensures var buf := Header(m, size) + rest;
            |buf| == 20 + |rest| && Word(buf[0], buf[1]) == m.class_ + m.tm && Word(buf[2], buf[3]) == size
            && buf[4..20] == m.id && buf[20..] == rest
  {
    TypeBack(m.class_, m.tm);
    hide BigEndian, StunFormat.AllTyped, Word;
    WordOf(m.class_ + m.tm);
    WordOf(size);
    var buf := Header(m, size) + rest;
    assert buf[0] == BigEndian(2, m.class_ + m.tm)[0] && buf[1] == BigEndian(2, m.class_ + m.tm)[1];
    assert buf[2] == BigEndian(2, size)[0] && buf[3] == BigEndian(2, size)[1];
    assert buf[4..20] == m.id;
    assert buf[20..] == rest;
  }

  /** Of the type in any header the reader takes bits 4 and 8 for the class and the last four for the method. */
  lemma {:induction false} HeaderRead(buf: seq<byte>)
    requires |buf| >= 20
    ensures var t, m := FromBigEndian(buf[..2]), ParseHeader(buf);
            && m.class_ == (if t / 16 % 2 == 1 then 0x10 else 0) + (if t / 256 % 2 == 1 then 0x100 else 0)
            && m.tm == t % 16 && m.id == buf[4..20] && m.attrs == map[] && m.integrity.None? && m.fingerprint.None?
  {
    hide FromBigEndian;
  }

  lemma {:induction false} SignedFront(c: Crypto, key: seq<byte>, m: Message, junk: seq<byte>)
    requires CryptoOk(c) && Encodable(m)
    ensures var buf, signed := Encoded(c, key, Order(), m, junk), Signed(c, key, Order(), m, junk);
            |signed| == |buf| - (if m.fingerprint.Some? then 8 else 0) && buf[..|signed|] == signed
  {
    hide Signed, WellTyped, BigEndian, AttrBytes, Order;
    AttrBytesSize(FINGERPRINT, BigEndian(4, c.crc(Signed(c, key, Order(), m, junk))), []);
  }
}
