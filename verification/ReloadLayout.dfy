/** The bytes of the RELOAD structures one field after the other: the widths, tags and order that a peer relies on. */
module ReloadLayout {
  import opened Common
  import opened WireFormat
  import opened ReloadCodec

  /** The values of a structure, one for each field. */
  function Values(vs: seq<Value>): Value {
    if vs == [] then VEmpty else VPair(vs[0], Values(vs[1..]))
  }

  ghost predicate EachTyped(fs: seq<Shape>, vs: seq<Value>) {
    |fs| == |vs| && forall i :: 0 <= i < |fs| ==> Typed(fs[i], vs[i])
  }

  function Flat(parts: seq<seq<byte>>): seq<byte> {
    if parts == [] then [] else parts[0] + Flat(parts[1..])
  }

  function Parts(fs: seq<Shape>, vs: seq<Value>): (parts: seq<seq<byte>>)
    requires EachTyped(fs, vs)
  {
    seq(|fs|, i requires 0 <= i < |fs| => Print(fs[i], vs[i]))
  }

  /** A structure is the bytes of its fields, one after the other. */
  lemma {:induction false} FieldsInOrder(fs: seq<Shape>, vs: seq<Value>)
    requires EachTyped(fs, vs)
    ensures Typed(Fields(fs), Values(vs)) && Print(Fields(fs), Values(vs)) == Flat(Parts(fs, vs))
    decreases |fs|
  {
    if fs != [] {
      FieldsInOrder(fs[1..], vs[1..]);
      assert Parts(fs, vs)[1..] == Parts(fs[1..], vs[1..]);
    }
  }

  /** A string behind its length in `n` bytes. */
  function Prefixed(n: nat, b: seq<byte>): seq<byte> {
    BigEndian(n, |b|) + b
  }

  ghost predicate AllOf(s: Shape, vs: seq<Value>) {
    forall i :: 0 <= i < |vs| ==> Typed(s, vs[i])
  }

  /** What the parts of a field that is no structure look like. */
  lemma {:induction false} SimpleParts(n: nat, i: nat, b: seq<byte>)
    ensures Typed(UInt(n), VInt(i)) && Print(UInt(n), VInt(i)) == BigEndian(n, i)
    ensures Typed(Opaque(n), VBytes(b)) && Print(Opaque(n), VBytes(b)) == Prefixed(n, b)
  {
  }

  lemma {:induction false} ListPart(n: nat, s: Shape, vs: seq<Value>)
    requires AllOf(s, vs)
    ensures Typed(List(n, s), VList(vs)) && Print(List(n, s), VList(vs)) == Prefixed(n, PrintAll(s, vs))
  {
  }

  lemma {:induction false} SizedPart(n: nat, body: Shape, v: Value)
    requires Typed(body, v)
    ensures Typed(Sized(n, body), v) && Print(Sized(n, body), v) == Prefixed(n, Print(body, v))
  {
  }

  lemma {:induction false} SelectPart(bodies: seq<Shape>, tag: nat, v: Value)
    requires 1 <= tag <= |bodies| && tag < 256 && Typed(bodies[tag - 1], v)
    ensures Typed(Select(bodies), VTagged(tag, v))
    ensures Print(Select(bodies), VTagged(tag, v)) == [tag] + Print(bodies[tag - 1], v)
  {
    OneByteIs(tag);
    hide BigEndian;
  }

  lemma {:induction false} FlatTwo(a: seq<byte>, b: seq<byte>)
    ensures Flat([a, b]) == a + b
  {
    assert [a, b][1..] == [b] && [b][1..] == [];
    assert Flat([b]) == b;
  }

  // ----- identifiers and destinations -----

  function NodeIdValue(high: nat, low: nat): Value {
    Values([VInt(high), VInt(low)])
  }

  lemma {:induction false} NodeIdLayout(high: nat, low: nat)
    ensures Typed(NODE_ID, NodeIdValue(high, low))
    ensures Print(NODE_ID, NodeIdValue(high, low)) == BigEndian(8, high) + BigEndian(8, low)
  {
    hide BigEndian;
    FieldsInOrder([UInt(8), UInt(8)], [VInt(high), VInt(low)]);
    assert Parts([UInt(8), UInt(8)], [VInt(high), VInt(low)]) == [BigEndian(8, high), BigEndian(8, low)];
    FlatTwo(BigEndian(8, high), BigEndian(8, low));
  }

  lemma {:induction false} OneByteIs(n: nat)
    requires n < 256
    ensures BigEndian(1, n) == [n]
  {
  }

  /** A destination is its kind, the number of bytes that follow, and a node identifier (1), a resource identifier
      (2) or a compressed one (3). */
  lemma {:induction false} DestinationLayout(high: nat, low: nat, id: seq<byte>)
    requires |id| < 255
    ensures Typed(DESTINATION, VTagged(1, NodeIdValue(high, low)))
    ensures Print(DESTINATION, VTagged(1, NodeIdValue(high, low))) == [1] + [16] + (BigEndian(8, high) + BigEndian(8, low))
    ensures Typed(DESTINATION, VTagged(2, VBytes(id))) && Typed(DESTINATION, VTagged(3, VBytes(id)))
    ensures Print(DESTINATION, VTagged(2, VBytes(id))) == [2] + [|id| + 1] + ([|id|] + id)
    ensures Print(DESTINATION, VTagged(3, VBytes(id))) == [3] + [|id| + 1] + ([|id|] + id)
  {
    hide BigEndian;
    NodeIdLayout(high, low);
    TaggedLayout(1, NODE_ID, NodeIdValue(high, low));
    hide NODE_ID, NodeIdValue;
    OneByteIs(|id|);
    SimpleParts(1, 0, id);
    TaggedLayout(2, RESOURCE_ID, VBytes(id));
    TaggedLayout(3, Opaque(1), VBytes(id));
  }

  lemma {:induction false} TaggedLayout(tag: nat, body: Shape, v: Value)
    requires 1 <= tag <= 3 && body == [NODE_ID, RESOURCE_ID, Opaque(1)][tag - 1]
    requires Typed(body, v) && |Print(body, v)| < 256
    ensures Typed(DESTINATION, VTagged(tag, v))
    ensures Print(DESTINATION, VTagged(tag, v)) == [tag] + [|Print(body, v)|] + Print(body, v)
  {
    OneByteIs(|Print(body, v)|);
    hide BigEndian, Print, Typed, NODE_ID, RESOURCE_ID;
    var bodies := [Sized(1, NODE_ID), Sized(1, RESOURCE_ID), Sized(1, Opaque(1))];
    assert bodies[tag - 1] == Sized(1, body);
    SizedPart(1, body, v);
    SelectPart(bodies, tag, v);
  }

  // ----- the forwarding header -----

  datatype Header = Header(
    token: nat, overlay: nat, ttl: nat, reserved: nat, fragment: nat, version: nat, length: nat, tid: nat, flags: nat,
    vias: seq<Value>, dests: seq<Value>, routeLog: nat, code: nat)

  function HeaderValue(h: Header): Value {
    Values([VInt(h.token), VInt(h.overlay), VInt(h.ttl), VInt(h.reserved), VInt(h.fragment), VInt(h.version), VInt(h.length),
            VInt(h.tid), VInt(h.flags), VList(h.vias), VList(h.dests), VInt(h.routeLog), VInt(h.code)])
  }

  /** The header: token, overlay, time to live, a reserved byte, fragment, version, length, transaction and flags in
      4, 4, 1, 1, 2, 1, 3, 8 and 2 bytes, both lists behind their sizes in two, the size of the route log and the
      message code in two each. */
  lemma {:induction false} HeaderLayout(h: Header)
    requires AllOf(DESTINATION, h.vias) && AllOf(DESTINATION, h.dests)
    ensures Typed(FORWARDING_HEADER, HeaderValue(h))
    ensures Print(FORWARDING_HEADER, HeaderValue(h)) == Flat([
      BigEndian(4, h.token), BigEndian(4, h.overlay), BigEndian(1, h.ttl), BigEndian(1, h.reserved), BigEndian(2, h.fragment),
      BigEndian(1, h.version), BigEndian(3, h.length), BigEndian(8, h.tid), BigEndian(2, h.flags),
      Prefixed(2, PrintAll(DESTINATION, h.vias)), Prefixed(2, PrintAll(DESTINATION, h.dests)),
      BigEndian(2, h.routeLog), BigEndian(2, h.code)])
  {
    hide BigEndian, PrintAll, Flat, Fields, Values, DESTINATION, Prefixed;
    var list := List(2, DESTINATION);
    ListPart(2, DESTINATION, h.vias);
    ListPart(2, DESTINATION, h.dests);
    var fs := [UInt(4), UInt(4), UInt(1), UInt(1), UInt(2), UInt(1), UInt(3), UInt(8), UInt(2), list, list, UInt(2), UInt(2)];
    var vs := [VInt(h.token), VInt(h.overlay), VInt(h.ttl), VInt(h.reserved), VInt(h.fragment), VInt(h.version), VInt(h.length),
               VInt(h.tid), VInt(h.flags), VList(h.vias), VList(h.dests), VInt(h.routeLog), VInt(h.code)];
    FieldsInOrder(fs, vs);
    assert Parts(fs, vs) == [
      BigEndian(4, h.token), BigEndian(4, h.overlay), BigEndian(1, h.ttl), BigEndian(1, h.reserved), BigEndian(2, h.fragment),
      BigEndian(1, h.version), BigEndian(3, h.length), BigEndian(8, h.tid), BigEndian(2, h.flags),
      Prefixed(2, PrintAll(DESTINATION, h.vias)), Prefixed(2, PrintAll(DESTINATION, h.dests)),
      BigEndian(2, h.routeLog), BigEndian(2, h.code)];
  }

  // ----- storing and connecting -----

  function SignatureValue(hash: nat, sign: nat, kind: nat, identity: seq<byte>, signature: seq<byte>): Value {
    Values([Values([VInt(hash), VInt(sign)]), Values([VInt(kind), VBytes(identity)]), VBytes(signature)])
  }

  lemma {:induction false} PairLayout(f: Shape, g: Shape, v: Value, w: Value)
    requires Typed(f, v) && Typed(g, w)
    ensures Typed(Fields([f, g]), Values([v, w])) && Print(Fields([f, g]), Values([v, w])) == Print(f, v) + Print(g, w)
  {
    hide Print, Typed;
    FieldsInOrder([f, g], [v, w]);
    assert Parts([f, g], [v, w]) == [Print(f, v), Print(g, w)];
    FlatTwo(Print(f, v), Print(g, w));
  }

  /** A signature: hash and signature algorithm in a byte each, the kind of identity in one, the identity and the
      signature behind their lengths in two. */
  lemma {:induction false} SignatureLayout(hash: nat, sign: nat, kind: nat, identity: seq<byte>, signature: seq<byte>)
    ensures var v := SignatureValue(hash, sign, kind, identity, signature);
            Typed(SIGNATURE, v)
            && Print(SIGNATURE, v) == Flat([BigEndian(1, hash) + BigEndian(1, sign), BigEndian(1, kind) + Prefixed(2, identity),
                                            Prefixed(2, signature)])
  {
    hide BigEndian, Flat, Print, Typed, Fields, Values;
    SimpleParts(1, hash, identity);
    SimpleParts(1, sign, signature);
    SimpleParts(1, kind, identity);
    SimpleParts(2, 0, identity);
    SimpleParts(2, 0, signature);
    PairLayout(UInt(1), UInt(1), VInt(hash), VInt(sign));
    PairLayout(UInt(1), Opaque(2), VInt(kind), VBytes(identity));
    var fs := [Fields([UInt(1), UInt(1)]), Fields([UInt(1), Opaque(2)]), Opaque(2)];
    var vs := [Values([VInt(hash), VInt(sign)]), Values([VInt(kind), VBytes(identity)]), VBytes(signature)];
    FieldsInOrder(fs, vs);
    assert Parts(fs, vs)
        == [BigEndian(1, hash) + BigEndian(1, sign), BigEndian(1, kind) + Prefixed(2, identity), Prefixed(2, signature)];
  }

  /** A stored value is a byte that says whether it exists and the value behind its length in four bytes; an array
      entry has its index in four bytes before that, a dictionary entry its key behind its length in two. */
  lemma {:induction false} StoredValueLayout(exists_: nat, value: seq<byte>, index: nat, key: seq<byte>)
    ensures var d := Values([VInt(exists_), VBytes(value)]);
            var single := BigEndian(1, exists_) + Prefixed(4, value);
            && Typed(STORED_DATA_VALUE, VTagged(1, d)) && Print(STORED_DATA_VALUE, VTagged(1, d)) == [1] + single
            && Typed(STORED_DATA_VALUE, VTagged(2, Values([VInt(index), d])))
            && Print(STORED_DATA_VALUE, VTagged(2, Values([VInt(index), d]))) == [2] + (BigEndian(4, index) + single)
            && Typed(STORED_DATA_VALUE, VTagged(3, Values([VBytes(key), d])))
            && Print(STORED_DATA_VALUE, VTagged(3, Values([VBytes(key), d]))) == [3] + (Prefixed(2, key) + single)
  {
    OneByteIs(1);
    OneByteIs(2);
    OneByteIs(3);
    hide BigEndian, Fields, Values;
    var d := Values([VInt(exists_), VBytes(value)]);
    SimpleParts(1, exists_, value);
    SimpleParts(4, index, value);
    SimpleParts(2, 0, key);
    PairLayout(UInt(1), Opaque(4), VInt(exists_), VBytes(value));
    PairLayout(UInt(4), DATA_VALUE, VInt(index), d);
    PairLayout(Opaque(2), DATA_VALUE, VBytes(key), d);
    SelectLayout(1, DATA_VALUE, d);
    SelectLayout(2, ARRAY_ENTRY, Values([VInt(index), d]));
    SelectLayout(3, DICTIONARY_ENTRY, Values([VBytes(key), d]));
  }

  lemma {:induction false} SelectLayout(tag: nat, body: Shape, v: Value)
    requires 1 <= tag <= 3 && body == [DATA_VALUE, ARRAY_ENTRY, DICTIONARY_ENTRY][tag - 1] && Typed(body, v)
    ensures Typed(STORED_DATA_VALUE, VTagged(tag, v))
    ensures Print(STORED_DATA_VALUE, VTagged(tag, v)) == [tag] + Print(body, v)
  {
    SelectPart([DATA_VALUE, ARRAY_ENTRY, DICTIONARY_ENTRY], tag, v);
  }

  lemma {:induction false} FourLayout(f: Shape, g: Shape, h: Shape, i: Shape, v: Value, w: Value, x: Value, y: Value)
    requires Typed(f, v) && Typed(g, w) && Typed(h, x) && Typed(i, y)
    ensures Typed(Fields([f, g, h, i]), Values([v, w, x, y]))
    ensures Print(Fields([f, g, h, i]), Values([v, w, x, y])) == Flat([Print(f, v), Print(g, w), Print(h, x), Print(i, y)])
  {
    hide Print, Typed, Flat;
    FieldsInOrder([f, g, h, i], [v, w, x, y]);
    assert Parts([f, g, h, i], [v, w, x, y]) == [Print(f, v), Print(g, w), Print(h, x), Print(i, y)];
  }

  /** Stored data behind its size in four bytes: the time in eight, the lifetime in four, the value and the
      signature. */
  lemma {:induction false} StoredDataLayout(time: nat, lifetime: nat, value: Value, signature: Value)
    requires Typed(STORED_DATA_VALUE, value) && Typed(SIGNATURE, signature)
    ensures var v := Values([VInt(time), VInt(lifetime), value, signature]);
            Typed(STORED_DATA, v)
            && Print(STORED_DATA, v) == Prefixed(4, Flat([BigEndian(8, time), BigEndian(4, lifetime), Print(STORED_DATA_VALUE, value),
                                                          Print(SIGNATURE, signature)]))
  {
    SimpleParts(8, time, []);
    SimpleParts(4, lifetime, []);
    hide BigEndian, Flat, Fields, Values, STORED_DATA_VALUE, SIGNATURE, Print, Typed, Prefixed;
    FourLayout(UInt(8), UInt(4), STORED_DATA_VALUE, SIGNATURE, VInt(time), VInt(lifetime), value, signature);
    SizedPart(4, Fields([UInt(8), UInt(4), STORED_DATA_VALUE, SIGNATURE]), Values([VInt(time), VInt(lifetime), value, signature]));
  }

  /** A store request: the resource behind its length, the replica number in one byte, and behind their size in four
      the kinds, each with its number in four bytes, model in one and generation in eight, and the data of the kind
      behind their size in four. */
  lemma {:induction false} StoreRequestLayout(resource: seq<byte>, replica: nat, kinds: seq<Value>, kind: nat, model: nat, generation: nat,
                           data: seq<Value>)
    requires AllOf(STORE_KIND_DATA, kinds) && AllOf(STORED_DATA, data)
    ensures var v := Values([VInt(kind), VInt(model), VInt(generation), VList(data)]);
            Typed(STORE_KIND_DATA, v)
            && Print(STORE_KIND_DATA, v) == Flat([BigEndian(4, kind), BigEndian(1, model), BigEndian(8, generation),
                                                  Prefixed(4, PrintAll(STORED_DATA, data))])
    ensures var v := Values([VBytes(resource), VInt(replica), VList(kinds)]);
            Typed(STORE_REQ, v)
            && Print(STORE_REQ, v) == Flat([Prefixed(1, resource), BigEndian(1, replica), Prefixed(4, PrintAll(STORE_KIND_DATA, kinds))])
  {
    KindLayout(kind, model, generation, data);
    RequestLayout(resource, replica, kinds);
  }

  lemma {:induction false} RequestLayout(resource: seq<byte>, replica: nat, kinds: seq<Value>)
    requires AllOf(STORE_KIND_DATA, kinds)
    ensures var v := Values([VBytes(resource), VInt(replica), VList(kinds)]);
            Typed(STORE_REQ, v)
            && Print(STORE_REQ, v) == Flat([Prefixed(1, resource), BigEndian(1, replica), Prefixed(4, PrintAll(STORE_KIND_DATA, kinds))])
  {
    SimpleParts(1, replica, resource);
    ListPart(4, STORE_KIND_DATA, kinds);
    hide BigEndian, Flat, Fields, Values, PrintAll, STORE_KIND_DATA, Print, Typed, Prefixed;
    var fs, vs := [RESOURCE_ID, UInt(1), List(4, STORE_KIND_DATA)], [VBytes(resource), VInt(replica), VList(kinds)];
    FieldsInOrder(fs, vs);
    assert Parts(fs, vs) == [Prefixed(1, resource), BigEndian(1, replica), Prefixed(4, PrintAll(STORE_KIND_DATA, kinds))];
  }

  lemma {:induction false} KindLayout(kind: nat, model: nat, generation: nat, data: seq<Value>)
    requires AllOf(STORED_DATA, data)
    ensures var v := Values([VInt(kind), VInt(model), VInt(generation), VList(data)]);
            Typed(STORE_KIND_DATA, v)
            && Print(STORE_KIND_DATA, v) == Flat([BigEndian(4, kind), BigEndian(1, model), BigEndian(8, generation),
                                                  Prefixed(4, PrintAll(STORED_DATA, data))])
  {
    SimpleParts(4, kind, []);
    SimpleParts(1, model, []);
    SimpleParts(8, generation, []);
    ListPart(4, STORED_DATA, data);
    hide BigEndian, Flat, Fields, Values, PrintAll, STORED_DATA, Print, Typed, Prefixed;
    FourLayout(UInt(4), UInt(1), UInt(8), List(4, STORED_DATA), VInt(kind), VInt(model), VInt(generation), VList(data));
  }

  /** A connect request: user fragment, password and role behind their lengths in one byte, the application in two
      before the role, and the candidates, each behind its length, behind their size in two. */
  lemma {:induction false} ConnectLayout(ufrag: seq<byte>, password: seq<byte>, application: nat, role: seq<byte>, candidates: seq<Value>)
    requires AllOf(Opaque(2), candidates)
    ensures var v := Values([VBytes(ufrag), VBytes(password), VInt(application), VBytes(role), VList(candidates)]);
            Typed(CONNECT_REQ_ANS, v)
            && Print(CONNECT_REQ_ANS, v) == Flat([Prefixed(1, ufrag), Prefixed(1, password), BigEndian(2, application),
                                                  Prefixed(1, role), Prefixed(2, PrintAll(Opaque(2), candidates))])
  {
    SimpleParts(1, 0, ufrag);
    SimpleParts(1, 0, password);
    SimpleParts(2, application, []);
    SimpleParts(1, 0, role);
    ListPart(2, Opaque(2), candidates);
    hide BigEndian, Flat, Fields, Values, PrintAll, Print, Typed, Prefixed;
    var fs := [Opaque(1), Opaque(1), UInt(2), Opaque(1), List(2, Opaque(2))];
    var vs := [VBytes(ufrag), VBytes(password), VInt(application), VBytes(role), VList(candidates)];
    FieldsInOrder(fs, vs);
    assert Parts(fs, vs)
        == [Prefixed(1, ufrag), Prefixed(1, password), BigEndian(2, application), Prefixed(1, role),
            Prefixed(2, PrintAll(Opaque(2), candidates))];
  }
}
