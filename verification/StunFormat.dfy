/** STUN messages on the wire: a header, attributes padded to four bytes, and at the end the integrity and
    fingerprint attributes that cover what stands before them. */
module StunFormat {
  import opened Common
  import opened WireFormat

  /** How the value of an attribute is laid out. */
  datatype Kind =
    | PlainAddress | XorAddress | Word32 | Channel | Transport | Props | Token
    | Text | Payload | ErrorCode | UnknownList | Integrity | Fingerprint

  const INTEGRITY: nat := 0x0008
  const FINGERPRINT: nat := 0x8028
  const XOR_MAPPED_ADDRESS: nat := 0x0020
  const XOR_MAPPED_ADDRESS_OLD: nat := 0x8020
  const UNKNOWN_ATTRIBUTES: nat := 0x000A
  const MAX_UNKNOWN: nat := 8
  const MAX_UNKNOWN_SIZE: nat := 18

  function KindOf(t: nat): Option<Kind> {
    if t in {0x0001, 0x0002, 0x0004, 0x0005, 0x000B, 0x000E, 0x0011, 0x8023, 0x8050} then Some(PlainAddress)
    else if t in {0x0020, 0x8020, 0x0012, 0x0016} then Some(XorAddress)
    else if t in {0x0003, 0x000D, 0x000F, 0x0010, 0x0023, 0x8024} then Some(Word32)
    else if t in {0x0006, 0x0007, 0x0014, 0x0015, 0x8022} then Some(Text)
    else if t == 0x0008 then Some(Integrity)
    else if t == 0x0009 then Some(ErrorCode)
    else if t == 0x000A then Some(UnknownList)
    else if t == 0x000C then Some(Channel)
    else if t == 0x0013 then Some(Payload)
    else if t == 0x0018 then Some(Props)
    else if t == 0x0019 then Some(Transport)
    else if t == 0x0022 then Some(Token)
    else if t == 0x8028 then Some(Fingerprint)
    else None
  }

  /** The order in which attributes are written; integrity and fingerprint follow. */
  function Order(): seq<nat> {
    Earlier() + [UNKNOWN_ATTRIBUTES] + Later()
  }

  function Earlier(): seq<nat> {
    [0x000F, 0x0001, 0x0002, 0x0003, 0x0004, 0x0005, 0x0006, 0x0007, 0x0009]
  }

  function Later(): seq<nat> {
    [0x000B, 0x0014, 0x0015, 0x0020, 0x8022, 0x8023, 0x8024, 0x8050, 0x000C, 0x000D,
     0x000E, 0x0010, 0x0011, 0x0012, 0x0013, 0x0016, 0x0018, 0x0019, 0x0022, 0x0023]
  }

  /** `Address` is an IPv4 address; `Address6` an IPv6 address, whose sixteen bytes are kept as they stand on
      the wire; `Types` the list of an unknown-attributes attribute. */
  datatype Attr =
    | Address(port: bv16, ip: bv32)
    | Address6(port: bv16, wire: seq<byte>)
    | Number(n: nat)
    | Bytes(b: seq<byte>)
    | Failure(errorClass: byte, number: byte, reason: seq<byte>)
    | Types(ts: seq<nat>)

  /** `class_` and `tm` are the class and method bits of the type; `id` is the magic cookie with the transaction
      id. */
  datatype Message = Message(
    class_: nat,
    tm: nat,
    id: seq<byte>,
    attrs: map<nat, Attr>,
    integrity: Option<seq<byte>>,
    fingerprint: Option<nat>)

  /** The value has the type and width of the field that the attribute is kept in. */
  ghost predicate WellTyped(t: nat, a: Attr) {
    match KindOf(t)
    case Some(PlainAddress) => a.Address? || (a.Address6? && |a.wire| == 16)
    case Some(XorAddress) => a.Address? || (a.Address6? && |a.wire| == 16)
    case Some(Word32) => a.Number? && a.n < 0x1_0000_0000
    case Some(Channel) => a.Number? && a.n < 0x1_0000
    case Some(Transport) => a.Number? && a.n < 0x100
    case Some(Props) => a.Number? && a.n < 0x100
    case Some(Token) => a.Bytes? && |a.b| == 8
    case Some(Text) => a.Bytes?
    case Some(Payload) => a.Bytes?
    case Some(ErrorCode) => a.Failure?
    case Some(UnknownList) => a.Types? && |a.ts| <= MAX_UNKNOWN
    case _ => false
  }

  ghost predicate AllTyped(attrs: map<nat, Attr>) {
    forall t :: t in attrs ==> WellTyped(t, attrs[t])
  }

  /** Values that come back: not IPv6 addresses, for which the reader insists on eight bytes, and not lists of
      unknown attributes, whose elements it takes for twice as long as they are written. */
  predicate Readable(a: Attr) {
    !a.Address6? && !a.Types?
  }

  predicate AllReadable(attrs: map<nat, Attr>) {
    forall t :: t in attrs ==> Readable(attrs[t])
  }

  /** Every attribute of the message has its place in `order`. */
  ghost predicate Covers(order: seq<nat>, m: Message) {
    forall t :: t in m.attrs ==> t in order
  }

  ghost predicate Encodable(m: Message) {
    && m.class_ in {0, 0x10, 0x100, 0x110} && m.tm < 16 && |m.id| == 16
    && AllTyped(m.attrs) && XOR_MAPPED_ADDRESS_OLD !in m.attrs
  }

  // ----- writing -----

  function PadOf(n: nat): nat {
    if n % 4 == 0 then 0 else 4 - n % 4
  }

  function Zeros(n: nat): (z: seq<byte>)
    ensures |z| == n
  {
    if n == 0 then [] else [0] + Zeros(n - 1)
  }

  /** The exclusive or with the magic cookie, whose upper half covers the port. */
  function Masked(a: Attr): Attr {
    match a
    case Address(port, ip) => Address(port ^ 0x2112, ip ^ 0x2112_A442)
    case Address6(port, wire) => Address6(port ^ 0x2112, wire)
    case _ => a
  }

  function AddressBytes(port: bv16, ip: bv32): (b: seq<byte>)
    ensures |b| == 8
  {
    [0, 1] + BigEndian(2, port as int) + BigEndian(4, ip as int)
  }

  function Address6Bytes(port: bv16, wire: seq<byte>): seq<byte> {
    [0, 2] + BigEndian(2, port as int) + wire
  }

  function AnyAddressBytes(a: Attr): seq<byte>
    requires a.Address? || a.Address6?
  {
    if a.Address? then AddressBytes(a.port, a.ip) else Address6Bytes(a.port, a.wire)
  }

  function TypesBytes(ts: seq<nat>): (b: seq<byte>)
    ensures |b| == 2 * |ts|
  {
    if ts == [] then [] else BigEndian(2, ts[0]) + TypesBytes(ts[1..])
  }

  /** What the length of an attribute says: for a list of unknown attributes two bytes more than are written. */
  function Declared(t: nat, n: nat): nat {
    if t == UNKNOWN_ATTRIBUTES then n + 2 else n
  }

  /** The bytes skipped behind an attribute; none are behind a list of unknown attributes. */
  function SkipOf(t: nat, n: nat): nat {
    if t == UNKNOWN_ATTRIBUTES then 0 else PadOf(n)
  }

  /** What is written between the header of an attribute and what is skipped. Text and reasons are filled up with zeros that are counted. */
  function Body(t: nat, a: Attr): seq<byte>
    requires WellTyped(t, a)
  {
    match KindOf(t).value
    case PlainAddress => AnyAddressBytes(a)
    case XorAddress => AnyAddressBytes(Masked(a))
    case Word32 => BigEndian(4, a.n)
    case Channel => BigEndian(4, a.n * 0x1_0000)
    case Transport => BigEndian(4, a.n * 0x100_0000)
    case Props => [a.n, 0, 0, 0]
    case Token => a.b
    case Text => a.b + Zeros(PadOf(|a.b|))
    case Payload => a.b
    case ErrorCode => [0, 0, a.errorClass, a.number] + a.reason + Zeros(PadOf(|a.reason|))
    case UnknownList => TypesBytes(a.ts)
  }

  /** `pad` is what stands in the buffer behind a payload that does not end on four bytes. */
  function AttrBytes(t: nat, body: seq<byte>, pad: seq<byte>): seq<byte> {
    BigEndian(2, t) + BigEndian(2, Declared(t, |body|)) + body + pad
  }

  /** The attributes of `order` that are present, written at `pos` of a buffer that held `junk`. */
  function AttrsBytes(order: seq<nat>, attrs: map<nat, Attr>, junk: seq<byte>, pos: nat): seq<byte>
    requires AllTyped(attrs)
    decreases |order|
  {
    if order == [] then []
    else if order[0] !in attrs then AttrsBytes(order[1..], attrs, junk, pos)
    else
      var body := Body(order[0], attrs[order[0]]);
      var one := AttrBytes(order[0], body, Left(junk, pos + 4 + |body|, SkipOf(order[0], |body|)));
      one + AttrsBytes(order[1..], attrs, junk, pos + |one|)
  }

  /** `n` bytes left over at `pos`, zero where the buffer ends. */
  function Left(junk: seq<byte>, pos: nat, n: nat): (b: seq<byte>)
    ensures |b| == n
    decreases n
  {
    if n == 0 then [] else [if pos < |junk| then junk[pos] else 0] + Left(junk, pos + 1, n - 1)
  }

  /** The keyed hash and the checksum are any functions with results of the right size. */
  datatype Crypto = Crypto(hmac: (seq<byte>, seq<byte>) -> seq<byte>, crc: seq<byte> -> nat)

  ghost predicate CryptoOk(c: Crypto) {
    && (forall key, data :: |c.hmac(key, data)| == 20)
    && (forall data :: c.crc(data) < 0x1_0000_0000)
  }

  function ToBlocks(b: seq<byte>): seq<byte> {
    b + Zeros(if |b| % 64 == 0 then 0 else 64 - |b| % 64)
  }

  function Header(m: Message, size: nat): seq<byte> {
    BigEndian(2, m.class_ + m.tm) + BigEndian(2, size) + m.id
  }

  /** The size in the header counts the attributes that are yet to come. */
  function SizeOf(m: Message, attrs: seq<byte>): nat {
    |attrs| + (if m.integrity.Some? then 24 else 0) + (if m.fingerprint.Some? then 8 else 0)
  }

  /** Everything before the integrity attribute. */
  function Prefix(order: seq<nat>, m: Message, junk: seq<byte>): seq<byte>
    requires AllTyped(m.attrs)
  {
    var attrs := AttrsBytes(order, m.attrs, junk, 20);
    Header(m, SizeOf(m, attrs)) + attrs
  }

  function Mac(c: Crypto, key: seq<byte>, prefix: seq<byte>): seq<byte> {
    c.hmac(key, ToBlocks(prefix))
  }

  function Signed(c: Crypto, key: seq<byte>, order: seq<nat>, m: Message, junk: seq<byte>): seq<byte>
    requires AllTyped(m.attrs)
  {
    var prefix := Prefix(order, m, junk);
    if m.integrity.Some? then prefix + AttrBytes(INTEGRITY, Mac(c, key, prefix), []) else prefix
  }

  function Encoded(c: Crypto, key: seq<byte>, order: seq<nat>, m: Message, junk: seq<byte>): seq<byte>
    requires AllTyped(m.attrs)
  {
    var signed := Signed(c, key, order, m, junk);
    if m.fingerprint.Some? then signed + AttrBytes(FINGERPRINT, BigEndian(4, c.crc(signed)), []) else signed
  }

  // ----- reading -----

  lemma {:induction false} WordBelow(bs: seq<byte>)
    ensures |bs| == 2 ==> FromBigEndian(bs) < 0x1_0000
    ensures |bs| == 4 ==> FromBigEndian(bs) < 0x1_0000_0000
  {
    IntCanonical(bs);
    assert Pow256(2) == 0x1_0000;
    assert Pow256(4) == 256 * (256 * Pow256(2)) == 0x1_0000_0000;
  }

  function Bits16(bs: seq<byte>): bv16
    requires |bs| == 2
  {
    WordBelow(bs);
    FromBigEndian(bs) as bv16
  }

  function Bits32(bs: seq<byte>): bv32
    requires |bs| == 4
  {
    WordBelow(bs);
    FromBigEndian(bs) as bv32
  }

  function ParseAddress(b: seq<byte>): Option<Attr> {
    if |b| != 8 || b[1] != 1 then None else Some(Address(Bits16(b[2..4]), Bits32(b[4..8])))
  }

  function ParseTypes(b: seq<byte>, n: nat): seq<nat>
    requires 2 * n <= |b|
  {
    if n == 0 then [] else [FromBigEndian(b[..2])] + ParseTypes(b[2..], n - 1)
  }

  function ParseValue(k: Kind, b: seq<byte>): Option<Attr> {
    match k
    case PlainAddress => ParseAddress(b)
    case XorAddress =>
      var a := ParseAddress(b);
      if a.None? then None else Some(Masked(a.value))
    case Word32 => if |b| != 4 then None else Some(Number(FromBigEndian(b)))
    case Channel => if |b| != 4 then None else Some(Number(FromBigEndian(b) / 0x1_0000 % 0x1_0000))
    case Transport => if |b| != 4 then None else Some(Number(FromBigEndian(b) / 0x100_0000 % 0x100))
    case Props => if |b| != 4 then None else Some(Number(b[0]))
    case Token => if |b| != 8 then None else Some(Bytes(b))
    case Text => Some(Bytes(b))
    case Payload => Some(Bytes(b))
    case ErrorCode => if |b| < 4 then None else Some(Failure(b[2], b[3], b[4..]))
    case UnknownList =>
      if |b| >= MAX_UNKNOWN_SIZE || |b| % 4 != 0 then None else Some(Types(ParseTypes(b, |b| / 4)))
    case Integrity => if |b| != 20 then None else Some(Bytes(b))
    case Fingerprint => if |b| != 4 then None else Some(Number(FromBigEndian(b)))
  }

  /** The field that an attribute is kept in: the old code point of the mapped address shares one. */
  function FieldOf(t: nat): nat {
    if t == XOR_MAPPED_ADDRESS_OLD then XOR_MAPPED_ADDRESS else t
  }

  function Store(m: Message, t: nat, k: Kind, a: Attr): Message {
    if k.Integrity? && a.Bytes? then m.(integrity := Some(a.b))
    else if k.Fingerprint? && a.Number? then m.(fingerprint := Some(a.n))
    else m.(attrs := m.attrs[FieldOf(t) := a])
  }

  /** The size of the attribute at the front, with header and padding, if that many bytes are left. */
  function AttrSize(bs: seq<byte>): (r: Option<nat>)
    ensures r.Some? ==> 4 <= r.value <= |bs|
  {
    if |bs| < 4 then None
    else
      var len := FromBigEndian(bs[2..4]);
      if len + PadOf(len) + 4 > |bs| then None else Some(len + PadOf(len) + 4)
  }

  /** One attribute. One of an unknown type is skipped if its type says that it may be. */
  function ParseOne(m: Message, bs: seq<byte>): Option<Message>
    requires AttrSize(bs).Some?
  {
    var t, len := FromBigEndian(bs[..2]), FromBigEndian(bs[2..4]);
    match KindOf(t)
    case None => if t <= 0x7FFF then None else Some(m)
    case Some(k) =>
      match ParseValue(k, bs[4..4 + len])
      case None => None
      case Some(a) => Some(Store(m, t, k, a))
  }

  function ParseAttrs(m: Message, bs: seq<byte>): Option<Message>
    decreases |bs|
  {
    if bs == [] then Some(m)
    else
      match AttrSize(bs)
      case None => None
      case Some(size) =>
        match ParseOne(m, bs)
        case None => None
        case Some(m') => ParseAttrs(m', bs[size..])
  }

  function ParseHeader(buf: seq<byte>): Message
    requires |buf| >= 20
  {
    var typ := FromBigEndian(buf[..2]);
    Message(typ / 16 % 2 * 16 + typ / 256 % 2 * 256, typ % 16, buf[4..20], map[], None, None)
  }

  /** A buffer is parsed only if the header gives its exact size. */
  function ParseMessage(buf: seq<byte>): Option<Message> {
    if |buf| < 20 || FromBigEndian(buf[2..4]) + 20 != |buf| then None
    else ParseAttrs(ParseHeader(buf), buf[20..])
  }

  // ----- checking -----

  /** The hash is recomputed over the buffer without its last attributes. */
  function CheckIntegrity(c: Crypto, key: seq<byte>, m: Message, buf: seq<byte>): bool {
    m.integrity.None?
    || var len := |buf| - 24 - (if m.fingerprint.Some? then 8 else 0);
       len >= 0 && m.integrity.value == Mac(c, key, buf[..len])
  }

  function CheckFingerprint(c: Crypto, m: Message, buf: seq<byte>): bool {
    m.fingerprint.None? || (|buf| >= 8 && m.fingerprint.value == c.crc(buf[..|buf| - 8]))
  }

  // ----- one attribute comes back -----

  /** What the reader sees of a value: text and reasons with the zeros they were filled up with. */
  function Filled(a: Attr, k: Kind): Attr {
    if k.Text? && a.Bytes? then Bytes(a.b + Zeros(PadOf(|a.b|)))
    else if a.Failure? then a.(reason := a.reason + Zeros(PadOf(|a.reason|)))
    else a
  }

  lemma {:induction false} BitsBack(port: bv16, ip: bv32)
    ensures Bits16(BigEndian(2, port as int)) == port
    ensures Bits32(BigEndian(4, ip as int)) == ip
  {
    WordBelow(BigEndian(2, port as int));
    WordBelow(BigEndian(4, ip as int));
    assert Pow256(2) == 0x1_0000;
    assert Pow256(4) == 256 * (256 * Pow256(2)) == 0x1_0000_0000;
    IntRoundTrip(2, port as int);
    IntRoundTrip(4, ip as int);
  }

  /** Masking is its own inverse. */
  lemma {:induction false} MaskTwice(a: Attr)
    ensures Masked(Masked(a)) == a && (a.Address? <==> Masked(a).Address?)
  {
  }

  lemma {:induction false} AddressBack(port: bv16, ip: bv32)
    ensures ParseAddress(AddressBytes(port, ip)) == Some(Address(port, ip))
  {
    BitsBack(port, ip);
    hide BigEndian, Bits16, Bits32;
    var b := AddressBytes(port, ip);
    assert b[2..4] == BigEndian(2, port as int);
    assert b[4..8] == BigEndian(4, ip as int);
  }

  lemma {:induction false} WordBack(n: nat)
    requires n < 0x1_0000_0000
    ensures FromBigEndian(BigEndian(4, n)) == n
  {
    assert Pow256(2) == 0x1_0000;
    assert Pow256(4) == 256 * (256 * Pow256(2)) == 0x1_0000_0000;
    IntRoundTrip(4, n);
  }

  lemma {:induction false} PlainValueBack(t: nat, a: Attr)
    requires WellTyped(t, a) && Readable(a) && KindOf(t).value == PlainAddress
    ensures ParseValue(PlainAddress, Body(t, a)) == Some(a)
  {
    hide KindOf, AddressBytes, ParseAddress, ParseTypes, BigEndian, FromBigEndian, Masked;
    AddressBack(a.port, a.ip);
  }

  lemma {:induction false} XorValueBack(t: nat, a: Attr)
    requires WellTyped(t, a) && Readable(a) && KindOf(t).value == XorAddress
    ensures ParseValue(XorAddress, Body(t, a)) == Some(a)
  {
    MaskTwice(a);
    hide KindOf, AddressBytes, ParseAddress, ParseTypes, BigEndian, FromBigEndian, Masked;
    var x := Masked(a);
    AddressBack(x.port, x.ip);
  }

  lemma {:induction false} NumberValueBack(t: nat, a: Attr)
    requires WellTyped(t, a) && Readable(a) && KindOf(t).value in {Word32, Channel, Transport, Props}
    ensures ParseValue(KindOf(t).value, Body(t, a)) == Some(Filled(a, KindOf(t).value))
  {
    hide KindOf, BigEndian, FromBigEndian, ParseAddress, ParseTypes;
    match KindOf(t).value
    case Word32 => WordBack(a.n);
    case Channel => WordBack(a.n * 0x1_0000);
    case Transport => WordBack(a.n * 0x100_0000);
    case Props =>
  }

  lemma {:induction false} BytesValueBack(t: nat, a: Attr)
    requires WellTyped(t, a) && Readable(a) && KindOf(t).value in {Token, Text, Payload, ErrorCode}
    ensures ParseValue(KindOf(t).value, Body(t, a)) == Some(Filled(a, KindOf(t).value))
  {
    hide KindOf, BigEndian, FromBigEndian, ParseAddress, ParseTypes, Zeros, PadOf;
    if KindOf(t).value.ErrorCode? {
      assert Body(t, a)[4..] == a.reason + Zeros(PadOf(|a.reason|));
    }
  }

  /** A value is read back from its body, text and reasons with the zeros they were filled up with. */
  lemma {:induction false} ValueBack(t: nat, a: Attr)
    requires WellTyped(t, a) && Readable(a)
    ensures ParseValue(KindOf(t).value, Body(t, a)) == Some(Filled(a, KindOf(t).value))
  {
    hide KindOf, Body, ParseValue;
    match KindOf(t).value
    case PlainAddress => PlainValueBack(t, a);
    case XorAddress => XorValueBack(t, a);
    case Word32 => NumberValueBack(t, a);
    case Channel => NumberValueBack(t, a);
    case Transport => NumberValueBack(t, a);
    case Props => NumberValueBack(t, a);
    case Token => BytesValueBack(t, a);
    case Text => BytesValueBack(t, a);
    case Payload => BytesValueBack(t, a);
    case ErrorCode => BytesValueBack(t, a);
  }

  lemma {:induction false} HalfBack(n: nat)
    requires n < 0x1_0000
    ensures FromBigEndian(BigEndian(2, n)) == n
  {
    assert Pow256(2) == 0x1_0000;
    IntRoundTrip(2, n);
  }

  /** An attribute whose length fits is read back whole, and the next one is found behind its padding. */
  lemma {:induction false} AttrBack(m: Message, t: nat, k: Kind, body: seq<byte>, pad: seq<byte>, rest: seq<byte>, a: Attr)
    requires t < 0x1_0000 && |body| < 0x1_0000 && |pad| == PadOf(|body|)
    requires KindOf(t) == Some(k) && ParseValue(k, body) == Some(a) && t != UNKNOWN_ATTRIBUTES
    ensures ParseAttrs(m, AttrBytes(t, body, pad) + rest) == ParseAttrs(Store(m, t, k, a), rest)
  {
    hide BigEndian, FromBigEndian, PadOf, ParseValue, KindOf, Store;
    HalfBack(t);
    HalfBack(|body|);
    var bs := AttrBytes(t, body, pad) + rest;
    assert bs[..2] == BigEndian(2, t);
    assert bs[2..4] == BigEndian(2, |body|);
    assert bs[4..4 + |body|] == body;
    assert AttrSize(bs) == Some(4 + |body| + |pad|);
    assert bs[4 + |body| + |pad|..] == rest;
  }

  // ----- a message comes back -----

  function FilledIn(m: Message, order: seq<nat>, attrs: map<nat, Attr>): Message
    decreases |order|
  {
    if order == [] then m
    else if order[0] !in attrs || KindOf(order[0]).None? then FilledIn(m, order[1..], attrs)
    else FilledIn(Store(m, order[0], KindOf(order[0]).value, Filled(attrs[order[0]], KindOf(order[0]).value)),
                  order[1..], attrs)
  }

  lemma {:induction false} KindOfField(t: nat, a: Attr)
    requires WellTyped(t, a)
    ensures t < 0x1_0000 && KindOf(t).Some?
    ensures !KindOf(t).value.Integrity? && !KindOf(t).value.Fingerprint?
  {
  }

  /** Every attribute that a message can hold has its place in the order of writing. */
  lemma {:induction false} EveryAttributeIsWritten(t: nat, a: Attr)
    requires WellTyped(t, a) && t != XOR_MAPPED_ADDRESS_OLD
    ensures t in Order()
  {
    assert t in Earlier() || t == UNKNOWN_ATTRIBUTES || t in Later();
    hide Earlier, Later;
  }

  lemma {:induction false} OrderCovers(m: Message)
    requires Encodable(m)
    ensures Covers(Order(), m)
  {
    hide Order;
    forall t | t in m.attrs
      ensures t in Order()
    {
      EveryAttributeIsWritten(t, m.attrs[t]);
    }
  }

  lemma {:induction false} ReadableType(t: nat, a: Attr)
    requires WellTyped(t, a)
    ensures t == UNKNOWN_ATTRIBUTES <==> a.Types?
  {
  }

  lemma {:induction false} AttrsBack(m: Message, order: seq<nat>, attrs: map<nat, Attr>, junk: seq<byte>, pos: nat, rest: seq<byte>)
    requires AllTyped(attrs) && AllReadable(attrs)
    requires |AttrsBytes(order, attrs, junk, pos)| < 0x1_0000
    ensures ParseAttrs(m, AttrsBytes(order, attrs, junk, pos) + rest) == ParseAttrs(FilledIn(m, order, attrs), rest)
    decreases |order|
  {
    hide ParseAttrs, Body, AttrBytes, WellTyped, KindOf, Store, Left, PadOf, Filled;
    if order == [] {
      assert [] + rest == rest;
    } else if order[0] !in attrs {
      AttrsBack(m, order[1..], attrs, junk, pos, rest);
    } else {
      var t := order[0];
      KindOfField(t, attrs[t]);
      var k, body := KindOf(t).value, Body(t, attrs[t]);
      ReadableType(t, attrs[t]);
      var pad := Left(junk, pos + 4 + |body|, SkipOf(t, |body|));
      AttrBytesSize(t, body, pad);
      var one := AttrBytes(t, body, pad);
      var more := AttrsBytes(order[1..], attrs, junk, pos + |one|);
      ValueBack(t, attrs[t]);
      AttrBack(m, t, k, body, pad, more + rest, Filled(attrs[t], k));
      assert one + more + rest == one + (more + rest);
      AttrsBack(Store(m, t, k, Filled(attrs[t], k)), order[1..], attrs, junk, pos + |one|, rest);
    }
  }

  lemma {:induction false} AttrBytesSize(t: nat, body: seq<byte>, pad: seq<byte>)
    ensures |AttrBytes(t, body, pad)| == 4 + |body| + |pad|
  {
  }

  /** What the reader makes of the attributes: each with its value filled up, and no others. */
  function FilledAttrs(attrs: map<nat, Attr>): map<nat, Attr> {
    map t | t in attrs :: if KindOf(t).Some? then Filled(attrs[t], KindOf(t).value) else attrs[t]
  }

  lemma {:induction false} FilledInIsAll(m: Message, order: seq<nat>, attrs: map<nat, Attr>)
    requires AllTyped(attrs) && XOR_MAPPED_ADDRESS_OLD !in attrs
    ensures var r := FilledIn(m, order, attrs);
            r == m.(attrs := r.attrs)
            && (forall t :: t in r.attrs <==> t in m.attrs || (t in order && t in attrs))
            && (forall t :: t in r.attrs ==>
                  r.attrs[t] == if t in order && t in attrs then FilledAttrs(attrs)[t] else m.attrs[t])
    decreases |order|
  {
    hide KindOf, Filled, WellTyped;
    if order != [] {
      var t, rest := order[0], order[1..];
      if t in attrs {
        KindOfField(t, attrs[t]);
      }
      assert forall u :: u in order <==> u == t || u in rest;
      FilledInIsAll(if t in attrs then Store(m, t, KindOf(t).value, Filled(attrs[t], KindOf(t).value)) else m, rest, attrs);
    }
  }

  /** The message with what the writer adds: values filled up, and the hash and the checksum of what stands
      before them. */
  function Delivered(c: Crypto, key: seq<byte>, order: seq<nat>, m: Message, junk: seq<byte>): Message
    requires AllTyped(m.attrs)
  {
    m.(attrs := FilledAttrs(m.attrs),
       integrity := if m.integrity.Some? then Some(Mac(c, key, Prefix(order, m, junk))) else None,
       fingerprint := if m.fingerprint.Some? then Some(c.crc(Signed(c, key, order, m, junk))) else None)
  }

  function Trailer(c: Crypto, key: seq<byte>, order: seq<nat>, m: Message, junk: seq<byte>): seq<byte>
    requires AllTyped(m.attrs)
  {
    (if m.integrity.Some? then AttrBytes(INTEGRITY, Mac(c, key, Prefix(order, m, junk)), []) else [])
    + (if m.fingerprint.Some? then AttrBytes(FINGERPRINT, BigEndian(4, c.crc(Signed(c, key, order, m, junk))), []) else [])
  }

  lemma {:induction false} TrailerBack(c: Crypto, key: seq<byte>, order: seq<nat>, m: Message, junk: seq<byte>, r: Message)
    requires CryptoOk(c) && AllTyped(m.attrs)
    requires r.integrity.None? && r.fingerprint.None?
    ensures ParseAttrs(r, Trailer(c, key, order, m, junk))
         == Some(r.(integrity := Delivered(c, key, order, m, junk).integrity,
                    fingerprint := Delivered(c, key, order, m, junk).fingerprint))
  {
    hide AttrBytes, Signed, Prefix, Mac, BigEndian, FromBigEndian, WellTyped, AllTyped;
    var mac, sum := Mac(c, key, Prefix(order, m, junk)), c.crc(Signed(c, key, order, m, junk));
    MacSize(c, key, Prefix(order, m, junk));
    WordBack(sum);
    assert ParseValue(Integrity, mac) == Some(Bytes(mac));
    assert ParseValue(Fingerprint, BigEndian(4, sum)) == Some(Number(sum));
    var first := if m.integrity.Some? then AttrBytes(INTEGRITY, mac, []) else [];
    var second := if m.fingerprint.Some? then AttrBytes(FINGERPRINT, BigEndian(4, sum), []) else [];
    var r1 := if m.integrity.Some? then Store(r, INTEGRITY, Integrity, Bytes(mac)) else r;
    if m.integrity.Some? {
      AttrBack(r, INTEGRITY, Integrity, mac, [], second, Bytes(mac));
    }
    assert [] + second == second;
    if m.fingerprint.Some? {
      AttrBack(r1, FINGERPRINT, Fingerprint, BigEndian(4, sum), [], [], Number(sum));
      assert second + [] == second;
    }
  }

  lemma {:induction false} MacSize(c: Crypto, key: seq<byte>, prefix: seq<byte>)
    requires CryptoOk(c)
    ensures |Mac(c, key, prefix)| == 20
  {
  }

  lemma {:induction false} TrailerSize(c: Crypto, key: seq<byte>, order: seq<nat>, m: Message, junk: seq<byte>)
    requires CryptoOk(c) && AllTyped(m.attrs)
    ensures |Trailer(c, key, order, m, junk)|
         == (if m.integrity.Some? then 24 else 0) + (if m.fingerprint.Some? then 8 else 0)
  {
    hide Prefix, Signed, Mac, WellTyped, BigEndian, CryptoOk, AttrBytes, AllTyped;
    MacSize(c, key, Prefix(order, m, junk));
    AttrBytesSize(INTEGRITY, Mac(c, key, Prefix(order, m, junk)), []);
    AttrBytesSize(FINGERPRINT, BigEndian(4, c.crc(Signed(c, key, order, m, junk))), []);
  }

  lemma {:induction false} EncodedParts(c: Crypto, key: seq<byte>, order: seq<nat>, m: Message, junk: seq<byte>)
    requires AllTyped(m.attrs)
    ensures Encoded(c, key, order, m, junk) == Prefix(order, m, junk) + Trailer(c, key, order, m, junk)
  {
    hide Prefix, Mac, WellTyped, BigEndian, CryptoOk, AttrBytes, AllTyped;
    var signed, trailer := Signed(c, key, order, m, junk), Trailer(c, key, order, m, junk);
    var sum := AttrBytes(FINGERPRINT, BigEndian(4, c.crc(signed)), []);
    var mac := AttrBytes(INTEGRITY, Mac(c, key, Prefix(order, m, junk)), []);
    assert trailer == (if m.integrity.Some? then mac else []) + (if m.fingerprint.Some? then sum else []);
    assert Prefix(order, m, junk) + (mac + sum) == Prefix(order, m, junk) + mac + sum;
  }

  lemma {:induction false} PrefixParts(order: seq<nat>, m: Message, junk: seq<byte>)
    requires AllTyped(m.attrs)
    ensures var attrs := AttrsBytes(order, m.attrs, junk, 20);
            Prefix(order, m, junk) == Header(m, SizeOf(m, attrs)) + attrs
  {
  }

  lemma {:induction false} HeaderSize(m: Message, size: nat)
    requires |m.id| == 16
    ensures |Header(m, size)| == 20
  {
  }

  lemma {:induction false} TypeBack(class_: nat, tm: nat)
    requires class_ in {0, 0x10, 0x100, 0x110} && tm < 16
    ensures var typ := class_ + tm;
            typ < 0x1_0000 && typ / 16 % 2 * 16 + typ / 256 % 2 * 256 == class_ && typ % 16 == tm
  {
  }

  lemma {:induction false} HeaderBack(m: Message, size: nat, rest: seq<byte>)
    requires Encodable(m) && size < 0x1_0000
    ensures var buf := Header(m, size) + rest;
            |buf| == 20 + |rest| && FromBigEndian(buf[2..4]) == size && buf[20..] == rest
            && ParseHeader(buf) == Message(m.class_, m.tm, m.id, map[], None, None)
  {
    hide BigEndian, FromBigEndian, AllTyped;
    TypeBack(m.class_, m.tm);
    HalfBack(m.class_ + m.tm);
    HalfBack(size);
    var buf := Header(m, size) + rest;
    assert buf[..2] == BigEndian(2, m.class_ + m.tm);
    assert buf[2..4] == BigEndian(2, size);
    assert buf[4..20] == m.id;
    assert buf[20..] == rest;
  }

  /** What the parser starts from. */
  function Blank(m: Message): Message {
    Message(m.class_, m.tm, m.id, map[], None, None)
  }

  /** The header says where the attributes are, which are then read one after the other. */
  lemma {:induction false} EncodedParses(c: Crypto, key: seq<byte>, order: seq<nat>, m: Message, junk: seq<byte>)
    requires CryptoOk(c) && Encodable(m) && SizeOf(m, AttrsBytes(order, m.attrs, junk, 20)) < 0x1_0000
    ensures ParseMessage(Encoded(c, key, order, m, junk))
         == ParseAttrs(Blank(m), AttrsBytes(order, m.attrs, junk, 20) + Trailer(c, key, order, m, junk))
  {
    hide Header, ParseHeader, AttrsBytes, Trailer, Encoded, Prefix, FromBigEndian, ParseAttrs, AllTyped, CryptoOk;
    var attrs := AttrsBytes(order, m.attrs, junk, 20);
    var size, trailer := SizeOf(m, attrs), Trailer(c, key, order, m, junk);
    EncodedParts(c, key, order, m, junk);
    TrailerSize(c, key, order, m, junk);
    PrefixParts(order, m, junk);
    assert Header(m, size) + attrs + trailer == Header(m, size) + (attrs + trailer);
    HeaderBack(m, size, attrs + trailer);
  }

  /** Whatever the hash and checksum functions, a message whose attributes fit the 16-bit size is read back
      from its encoding. */
  lemma {:induction false} ParseEncoded(c: Crypto, key: seq<byte>, order: seq<nat>, m: Message, junk: seq<byte>)
    requires CryptoOk(c) && Encodable(m) && Covers(order, m) && AllReadable(m.attrs) && SizeOf(m, AttrsBytes(order, m.attrs, junk, 20)) < 0x1_0000
    ensures ParseMessage(Encoded(c, key, order, m, junk)) == Some(Delivered(c, key, order, m, junk))
  {
    hide ParseMessage, AttrsBytes, Trailer, Encoded, Prefix, Mac, Signed, FilledIn, WellTyped, KindOf;
    EncodedParses(c, key, order, m, junk);
    var h := Blank(m);
    AttrsBack(h, order, m.attrs, junk, 20, Trailer(c, key, order, m, junk));
    FilledInIsAll(h, order, m.attrs);
    var r := FilledIn(h, order, m.attrs);
    assert r.attrs == FilledAttrs(m.attrs);
    TrailerBack(c, key, order, m, junk, r);
  }

  // ----- messages that do not come back -----

  /** The list of unknown attributes is written at most once. */
  ghost predicate OneUnknown(order: seq<nat>) {
    forall i, j :: 0 <= i < j < |order| ==> !(order[i] == UNKNOWN_ATTRIBUTES && order[j] == UNKNOWN_ATTRIBUTES)
  }

  lemma {:induction false} OnlyInTheMiddle(front: seq<nat>, back: seq<nat>)
    requires UNKNOWN_ATTRIBUTES !in front && UNKNOWN_ATTRIBUTES !in back
    ensures OneUnknown(front + [UNKNOWN_ATTRIBUTES] + back)
  {
    var o := front + [UNKNOWN_ATTRIBUTES] + back;
    forall i | 0 <= i < |o| && i != |front|
      ensures o[i] != UNKNOWN_ATTRIBUTES
    {
      assert if i < |front| then o[i] == front[i] else o[i] == back[i - |front| - 1];
    }
  }

  lemma {:induction false} OrderHasOneUnknown()
    ensures OneUnknown(Order())
  {
    assert UNKNOWN_ATTRIBUTES !in Earlier() && UNKNOWN_ATTRIBUTES !in Later();
    hide OneUnknown, Earlier, Later;
    OnlyInTheMiddle(Earlier(), Later());
  }

  lemma {:induction false} ParsedIsAligned(m: Message, bs: seq<byte>)
    ensures ParseAttrs(m, bs).Some? ==> |bs| % 4 == 0
    decreases |bs|
  {
    hide ParseOne, FromBigEndian;
    if bs != [] && AttrSize(bs).Some? && ParseOne(m, bs).Some? {
      ParsedIsAligned(ParseOne(m, bs).value, bs[AttrSize(bs).value..]);
    }
  }

  /** Every attribute takes a multiple of four bytes, but for a list with an odd number of unknown attributes. */
  lemma {:induction false} AttrsAligned(order: seq<nat>, attrs: map<nat, Attr>, junk: seq<byte>, pos: nat)
    requires AllTyped(attrs) && OneUnknown(order)
    ensures |AttrsBytes(order, attrs, junk, pos)| % 4
         == if UNKNOWN_ATTRIBUTES in order && UNKNOWN_ATTRIBUTES in attrs && attrs[UNKNOWN_ATTRIBUTES].Types?
            then 2 * |attrs[UNKNOWN_ATTRIBUTES].ts| % 4 else 0
    decreases |order|
  {
    hide Body, AttrBytes, WellTyped, Left;
    if order != [] {
      var t, rest := order[0], order[1..];
      assert forall u :: u in order <==> u == t || u in rest;
      assert OneUnknown(rest);
      if t in attrs {
        var body := Body(t, attrs[t]);
        var pad := Left(junk, pos + 4 + |body|, SkipOf(t, |body|));
        AttrBytesSize(t, body, pad);
        AttrsAligned(rest, attrs, junk, pos + |AttrBytes(t, body, pad)|);
        if t == UNKNOWN_ATTRIBUTES {
          UnknownBody(attrs[t]);
          forall j | 0 <= j < |rest|
            ensures rest[j] != t
          {
            assert order[j + 1] == rest[j];
          }
        }
      } else {
        AttrsAligned(rest, attrs, junk, pos);
      }
    }
  }

  lemma {:induction false} UnknownBody(a: Attr)
    requires WellTyped(UNKNOWN_ATTRIBUTES, a)
    ensures a.Types? && |Body(UNKNOWN_ATTRIBUTES, a)| == 2 * |a.ts|
  {
  }

  /** A value that is refused where it stands. */
  predicate Refused(a: Attr) {
    a.Address6? || (a.Types? && |a.ts| % 2 == 0)
  }

  lemma {:induction false} RefusedBody(t: nat, a: Attr)
    requires WellTyped(t, a) && Refused(a)
    ensures var n := Declared(t, |Body(t, a)|);
            n <= 20 && forall b: seq<byte> :: |b| == n ==> ParseValue(KindOf(t).value, b).None?
  {
    hide BigEndian, FromBigEndian, Bits16, Bits32, ParseTypes;
    ReadableType(t, a);
  }

  lemma {:induction false} AttrRefused(m: Message, t: nat, a: Attr, pad: seq<byte>, rest: seq<byte>)
    requires WellTyped(t, a) && Refused(a)
    ensures ParseAttrs(m, AttrBytes(t, Body(t, a), pad) + rest).None?
  {
    RefusedBody(t, a);
    KindOfField(t, a);
    hide WellTyped, Body, BigEndian, FromBigEndian, PadOf, ParseValue, KindOf, Store, Refused;
    var body := Body(t, a);
    var n, bs := Declared(t, |body|), AttrBytes(t, body, pad) + rest;
    HalfBack(t);
    HalfBack(n);
    assert bs[..2] == BigEndian(2, t);
    assert bs[2..4] == BigEndian(2, n);
  }

  lemma {:induction false} AttrsRefused(m: Message, order: seq<nat>, attrs: map<nat, Attr>, junk: seq<byte>, pos: nat, rest: seq<byte>,
                                        bad: nat)
    requires AllTyped(attrs) && forall t :: t in attrs ==> Readable(attrs[t]) || Refused(attrs[t])
    requires bad in order && bad in attrs && Refused(attrs[bad])
    requires |AttrsBytes(order, attrs, junk, pos)| < 0x1_0000
    ensures ParseAttrs(m, AttrsBytes(order, attrs, junk, pos) + rest).None?
    decreases |order|
  {
    hide ParseAttrs, Body, AttrBytes, WellTyped, KindOf, Store, Left, SkipOf, Filled, Refused, Readable;
    var t := order[0];
    assert t != bad ==> bad in order[1..];
    if t !in attrs {
      AttrsRefused(m, order[1..], attrs, junk, pos, rest, bad);
    } else {
      KindOfField(t, attrs[t]);
      ReadableType(t, attrs[t]);
      var k, body := KindOf(t).value, Body(t, attrs[t]);
      var pad := Left(junk, pos + 4 + |body|, SkipOf(t, |body|));
      AttrBytesSize(t, body, pad);
      var one := AttrBytes(t, body, pad);
      var more := AttrsBytes(order[1..], attrs, junk, pos + |one|);
      assert one + more + rest == one + (more + rest);
      if Refused(attrs[t]) {
        AttrRefused(m, t, attrs[t], pad, more + rest);
      } else {
        ReadableSkip(t, attrs[t], |body|);
        ValueBack(t, attrs[t]);
        AttrBack(m, t, k, body, pad, more + rest, Filled(attrs[t], k));
        AttrsRefused(Store(m, t, k, Filled(attrs[t], k)), order[1..], attrs, junk, pos + |one|, rest, bad);
      }
    }
  }

  lemma {:induction false} ReadableSkip(t: nat, a: Attr, n: nat)
    requires WellTyped(t, a) && Readable(a)
    ensures SkipOf(t, n) == PadOf(n) && t != UNKNOWN_ATTRIBUTES
  {
    ReadableType(t, a);
  }

  /** A message with a value that is not readable is refused as a whole. */
  lemma {:induction false} UnreadableRefused(c: Crypto, key: seq<byte>, order: seq<nat>, m: Message, junk: seq<byte>)
    requires CryptoOk(c) && Encodable(m) && Covers(order, m) && OneUnknown(order) && !AllReadable(m.attrs)
    requires SizeOf(m, AttrsBytes(order, m.attrs, junk, 20)) < 0x1_0000
    ensures ParseMessage(Encoded(c, key, order, m, junk)).None?
  {
    hide ParseMessage, AttrsBytes, Trailer, Encoded, Prefix, Mac, FromBigEndian, WellTyped, KindOf, ParseAttrs, OneUnknown;
    var attrs, trailer := AttrsBytes(order, m.attrs, junk, 20), Trailer(c, key, order, m, junk);
    EncodedParses(c, key, order, m, junk);
    TrailerSize(c, key, order, m, junk);
    var h := Blank(m);
    var bad :| bad in m.attrs && !Readable(m.attrs[bad]);
    if UNKNOWN_ATTRIBUTES in m.attrs && m.attrs[UNKNOWN_ATTRIBUTES].Types? && |m.attrs[UNKNOWN_ATTRIBUTES].ts| % 2 == 1 {
      AttrsAligned(order, m.attrs, junk, 20);
      ParsedIsAligned(h, attrs + trailer);
    } else {
      forall t | t in m.attrs
        ensures Readable(m.attrs[t]) || Refused(m.attrs[t])
      {
        ReadableType(t, m.attrs[t]);
      }
      AttrsRefused(h, order, m.attrs, junk, 20, trailer, bad);
    }
  }

  /** A message is restored exactly if it fits and holds neither IPv6 addresses nor a list of unknown
      attributes; any other is refused. */
  lemma {:induction false} ParsedExactly(c: Crypto, key: seq<byte>, order: seq<nat>, m: Message, junk: seq<byte>)
    requires CryptoOk(c) && Encodable(m) && Covers(order, m) && OneUnknown(order)
    ensures ParseMessage(Encoded(c, key, order, m, junk))
         == if SizeOf(m, AttrsBytes(order, m.attrs, junk, 20)) < 0x1_0000 && AllReadable(m.attrs)
            then Some(Delivered(c, key, order, m, junk)) else None
  {
    hide Header, AttrsBytes, Trailer, Encoded, Delivered, ParseAttrs, FromBigEndian, AllTyped, AllReadable, Prefix, OneUnknown, Covers;
    var attrs := AttrsBytes(order, m.attrs, junk, 20);
    if SizeOf(m, attrs) >= 0x1_0000 {
      EncodedParts(c, key, order, m, junk);
      TrailerSize(c, key, order, m, junk);
      PrefixParts(order, m, junk);
      HeaderSize(m, SizeOf(m, attrs));
      WordBelow(Encoded(c, key, order, m, junk)[2..4]);
    } else {
      hide ParseMessage;
      if AllReadable(m.attrs) {
        ParseEncoded(c, key, order, m, junk);
      } else {
        UnreadableRefused(c, key, order, m, junk);
      }
    }
  }

  /** In the order in which the encoder writes the attributes, this needs nothing of the message but that its
      values are of their types. */
  lemma {:induction false} ParsedInSourceOrder(c: Crypto, key: seq<byte>, m: Message, junk: seq<byte>)
    requires CryptoOk(c) && Encodable(m)
    ensures ParseMessage(Encoded(c, key, Order(), m, junk))
         == if SizeOf(m, AttrsBytes(Order(), m.attrs, junk, 20)) < 0x1_0000 && AllReadable(m.attrs)
            then Some(Delivered(c, key, Order(), m, junk)) else None
  {
    hide AttrsBytes, Encoded, Delivered, ParseMessage, AllTyped, AllReadable, OneUnknown, Covers, Order, SizeOf;
    OrderCovers(m);
    OrderHasOneUnknown();
    ParsedExactly(c, key, Order(), m, junk);
  }

  /** A message encoded with a key passes both checks under that key, with or without a fingerprint: reader and
      writer hash the same zero-padded prefix, which already holds the final size. */
  lemma {:induction false} EncodedPassesChecks(c: Crypto, key: seq<byte>, order: seq<nat>, m: Message, junk: seq<byte>)
    requires CryptoOk(c) && Encodable(m)
    ensures CheckIntegrity(c, key, Delivered(c, key, order, m, junk), Encoded(c, key, order, m, junk))
    ensures CheckFingerprint(c, Delivered(c, key, order, m, junk), Encoded(c, key, order, m, junk))
  {
    hide Mac, WellTyped, Prefix, CryptoOk, Trailer, FilledAttrs, AllTyped;
    EncodedParts(c, key, order, m, junk);
    TrailerSize(c, key, order, m, junk);
    MacSize(c, key, Prefix(order, m, junk));
    var prefix, signed, buf := Prefix(order, m, junk), Signed(c, key, order, m, junk), Encoded(c, key, order, m, junk);
    assert buf[..|prefix|] == prefix;
    if m.fingerprint.Some? {
      AttrBytesSize(FINGERPRINT, BigEndian(4, c.crc(signed)), []);
      hide AttrBytes, BigEndian;
      assert buf[..|signed|] == signed;
    }
  }

  /** So the checks pass on what a reader gets when it parses the bytes that were sent. */
  lemma {:induction false} ParsedPassesChecks(c: Crypto, key: seq<byte>, order: seq<nat>, m: Message, junk: seq<byte>)
    requires CryptoOk(c) && Encodable(m) && Covers(order, m) && AllReadable(m.attrs)
    requires SizeOf(m, AttrsBytes(order, m.attrs, junk, 20)) < 0x1_0000
    ensures var buf := Encoded(c, key, order, m, junk);
            var p := ParseMessage(buf);
            p.Some? && CheckIntegrity(c, key, p.value, buf) && CheckFingerprint(c, p.value, buf)
  {
    hide AllTyped, CryptoOk, Encoded, Delivered, ParseMessage, CheckIntegrity, CheckFingerprint, AttrsBytes;
    ParseEncoded(c, key, order, m, junk);
    EncodedPassesChecks(c, key, order, m, junk);
  }

  /** Under another key it passes exactly when the two keys hash its prefix alike. */
  lemma {:induction false} OtherKeyPassesExactly(c: Crypto, key: seq<byte>, other: seq<byte>, order: seq<nat>, m: Message, junk: seq<byte>)
    requires CryptoOk(c) && Encodable(m) && m.integrity.Some?
    ensures CheckIntegrity(c, other, Delivered(c, key, order, m, junk), Encoded(c, key, order, m, junk))
       <==> c.hmac(key, ToBlocks(Prefix(order, m, junk))) == c.hmac(other, ToBlocks(Prefix(order, m, junk)))
  {
    hide WellTyped, Prefix, ToBlocks, CryptoOk, Trailer, Signed, Encoded, FilledAttrs, AllTyped;
    EncodedParts(c, key, order, m, junk);
    TrailerSize(c, key, order, m, junk);
    var prefix, buf := Prefix(order, m, junk), Encoded(c, key, order, m, junk);
    assert buf[..|prefix|] == prefix;
  }
}
