/** The generated encoders and decoders of RELOAD structures: an output stream that is patched behind the
    writing position once a length is known, and an input stream that is read a byte at a time. */
module ReloadCodec {
  import opened Common
  import opened WireFormat

  // ----- the structures -----

  const NODE_ID := Fields([UInt(8), UInt(8)])
  const RESOURCE_ID := Opaque(1)
  const DESTINATION := Select([Sized(1, NODE_ID), Sized(1, RESOURCE_ID), Sized(1, Opaque(1))])
  const SIGNATURE := Fields([Fields([UInt(1), UInt(1)]), Fields([UInt(1), Opaque(2)]), Opaque(2)])
  const FORWARDING_HEADER := Fields([
    UInt(4), UInt(4), UInt(1), UInt(1), UInt(2), UInt(1), UInt(3), UInt(8), UInt(2),
    List(2, DESTINATION), List(2, DESTINATION), UInt(2), UInt(2)])
  const DATA_VALUE := Fields([UInt(1), Opaque(4)])
  const ARRAY_ENTRY := Fields([UInt(4), DATA_VALUE])
  const DICTIONARY_ENTRY := Fields([Opaque(2), DATA_VALUE])
  const STORED_DATA_VALUE := Select([DATA_VALUE, ARRAY_ENTRY, DICTIONARY_ENTRY])
  const STORED_DATA := Sized(4, Fields([UInt(8), UInt(4), STORED_DATA_VALUE, SIGNATURE]))
  const STORE_KIND_DATA := Fields([UInt(4), UInt(1), UInt(8), List(4, STORED_DATA)])
  const STORE_REQ := Fields([RESOURCE_ID, UInt(1), List(4, STORE_KIND_DATA)])
  const CONNECT_REQ_ANS := Fields([Opaque(1), Opaque(1), UInt(2), Opaque(1), List(2, Opaque(2))])

  /** Fields of which each is productive make a productive structure with room for the first of them. */
  lemma {:induction false} FieldsProductive(fs: seq<Shape>)
    requires fs != [] && forall i :: 0 <= i < |fs| ==> Productive(fs[i])
    ensures Productive(Fields(fs)) && MinSize(Fields(fs)) >= MinSize(fs[0])
  {
    if |fs| > 1 {
      FieldsProductive(fs[1..]);
    }
  }

  lemma {:induction false} DestinationProductive()
    ensures Productive(DESTINATION) && MinSize(DESTINATION) == 1
  {
    FieldsProductive([UInt(8), UInt(8)]);
  }

  lemma {:induction false} ForwardingHeaderProductive()
    ensures Productive(FORWARDING_HEADER)
  {
    DestinationProductive();
    hide Fields;
    var vias := List(2, DESTINATION);
    assert Productive(vias);
    FieldsProductive([UInt(4), UInt(4), UInt(1), UInt(1), UInt(2), UInt(1), UInt(3), UInt(8), UInt(2),
                      vias, vias, UInt(2), UInt(2)]);
  }

  lemma {:induction false} SignatureProductive()
    ensures Productive(SIGNATURE)
  {
    FieldsProductive([UInt(1), UInt(1)]);
    FieldsProductive([UInt(1), Opaque(2)]);
    FieldsProductive([Fields([UInt(1), UInt(1)]), Fields([UInt(1), Opaque(2)]), Opaque(2)]);
  }

  lemma {:induction false} StoredDataProductive()
    ensures Productive(STORED_DATA) && MinSize(STORED_DATA) == 4
  {
    hide Fields;
    FieldsProductive([UInt(1), Opaque(4)]);
    FieldsProductive([UInt(4), DATA_VALUE]);
    FieldsProductive([Opaque(2), DATA_VALUE]);
    assert Productive(STORED_DATA_VALUE);
    SignatureProductive();
    FieldsProductive([UInt(8), UInt(4), STORED_DATA_VALUE, SIGNATURE]);
  }

  /** Every list in these structures has elements of at least one byte, so no decoder loops forever and
      the round trip applies to each of them. */
  lemma {:induction false} StructuresProductive()
    ensures Productive(DESTINATION) && Productive(FORWARDING_HEADER) && Productive(SIGNATURE)
    ensures Productive(STORED_DATA) && Productive(STORE_KIND_DATA) && Productive(STORE_REQ)
    ensures Productive(CONNECT_REQ_ANS)
  {
    hide Fields;
    DestinationProductive();
    ForwardingHeaderProductive();
    SignatureProductive();
    StoredDataProductive();
    FieldsProductive([UInt(4), UInt(1), UInt(8), List(4, STORED_DATA)]);
    FieldsProductive([RESOURCE_ID, UInt(1), List(4, STORE_KIND_DATA)]);
    FieldsProductive([Opaque(1), Opaque(1), UInt(2), Opaque(1), List(2, Opaque(2))]);
  }

  // ----- writing -----

  /** What becomes of `buf` when `bs` is written at `pos`. */
  function Written(buf: seq<byte>, pos: nat, bs: seq<byte>): seq<byte>
    requires pos <= |buf|
  {
    buf[..pos] + bs + (if pos + |bs| <= |buf| then buf[pos + |bs|..] else [])
  }

  lemma {:induction false} WrittenNext(buf: seq<byte>, pos: nat, bs: seq<byte>, b: byte)
    requires pos <= |buf|
    ensures |Written(buf, pos, bs)| >= pos + |bs|
    ensures Written(Written(buf, pos, bs), pos + |bs|, [b]) == Written(buf, pos, bs + [b])
  {
    var mid := Written(buf, pos, bs);
    assert mid[..pos + |bs|] == buf[..pos] + bs;
    assert Written(mid, pos + |bs|, [b]) == Written(buf, pos, bs + [b]);
  }

  /** `v` shifted right by `k` bytes. */
  function Shifted(v: nat, k: nat): nat {
    if k == 0 then v else Shifted(v, k - 1) / 256
  }

  class OutStream {
    var buf: seq<byte>
    var pos: nat

    ghost predicate AtEnd()
      reads this
    {
      pos == |buf|
    }

    constructor ()
      ensures AtEnd() && buf == []
    {
      buf, pos := [], 0;
    }

    method Put(b: byte)
      requires pos <= |buf|
      modifies this
      ensures buf == Written(old(buf), old(pos), [b]) && pos == old(pos) + 1
    {
      if pos < |buf| {
        buf := buf[pos := b];
      } else {
        buf := buf + [b];
      }
      pos := pos + 1;
      assert buf == Written(old(buf), old(pos), [b]);
    }

    method PutBytes(b: seq<byte>)
      requires AtEnd()
      modifies this
      ensures AtEnd() && buf == old(buf) + b
    {
      buf := buf + b;
      pos := |buf|;
    }

    method PutZeros(n: nat)
      requires AtEnd()
      modifies this
      ensures AtEnd() && |buf| == old(|buf|) + n && old(buf) <= buf
    {
      for i := 0 to n
        invariant AtEnd() && |buf| == old(|buf|) + i && old(buf) <= buf
      {
        Put(0);
      }
    }

    method EncodeUint(n: nat, v: nat)
      requires pos <= |buf|
      modifies this
      ensures buf == Written(old(buf), old(pos), BigEndian(n, v)) && pos == old(pos) + n
    {
      assert buf == Written(buf, pos, BigEndian(0, Shifted(v, n)));
      for i := 0 to n
        invariant pos == old(pos) + i <= |buf|
        invariant buf == Written(old(buf), old(pos), BigEndian(i, Shifted(v, n - i)))
      {
        hide Written;
        var b := Shifted(v, n - i - 1) % 256;
        WrittenNext(old(buf), old(pos), BigEndian(i, Shifted(v, n - i)), b);
        Put(b);
      }
    }

    /** Seeks back to the length kept free at `at`, and returns to the end. */
    method Patch(at: nat, n: nat)
      requires AtEnd() && at + n <= |buf|
      modifies this
      ensures AtEnd()
      ensures buf == old(buf)[..at] + BigEndian(n, old(|buf|) - at - n) + old(buf)[at + n..]
    {
      var end := pos;
      pos := at;
      EncodeUint(n, end - at - n);
      pos := end;
    }
  }

  /** The encoder writes exactly the printed form, whether or not the lengths fit their prefixes. */
  method Encode(out: OutStream, s: Shape, v: Value)
    requires out.AtEnd() && Typed(s, v)
    modifies out
    ensures out.AtEnd() && out.buf == old(out.buf) + Print(s, v)
    decreases s, v, 0
  {
    hide BigEndian, Pow256, PrintAll;
    match s
    case Empty =>
    case UInt(n) => out.EncodeUint(n, v.i);
    case Opaque(n) =>
      out.EncodeUint(n, |v.b|);
      out.PutBytes(v.b);
    case Pair(a, b) =>
      Encode(out, a, v.v);
      Encode(out, b, v.w);
    case Sized(n, body) => EncodeSized(out, n, body, v);
    case List(n, elem) => EncodeList(out, n, elem, v.vs);
    case Select(bodies) =>
      out.EncodeUint(1, v.tag);
      Encode(out, bodies[v.tag - 1], v.body);
  }

  /** Keeps bytes free for the length, writes the body, and seeks back. */
  method EncodeSized(out: OutStream, n: nat, body: Shape, v: Value)
    requires out.AtEnd() && Typed(body, v)
    modifies out
    ensures out.AtEnd() && out.buf == old(out.buf) + Print(Sized(n, body), v)
    decreases body, v, 1
  {
    hide BigEndian, PrintAll;
    var at := out.pos;
    out.PutZeros(n);
    Encode(out, body, v);
    assert out.buf[at + n..] == Print(body, v);
    out.Patch(at, n);
  }

  method EncodeList(out: OutStream, n: nat, elem: Shape, vs: seq<Value>)
    requires out.AtEnd() && forall i :: 0 <= i < |vs| ==> Typed(elem, vs[i])
    modifies out
    ensures out.AtEnd() && out.buf == old(out.buf) + Print(List(n, elem), VList(vs))
    decreases elem, vs, 1
  {
    hide BigEndian, PrintAll;
    var at := out.pos;
    out.PutZeros(n);
    EncodeAll(out, elem, vs);
    assert out.buf[at + n..] == PrintAll(elem, vs);
    out.Patch(at, n);
  }

  method EncodeAll(out: OutStream, s: Shape, vs: seq<Value>)
    requires out.AtEnd() && forall i :: 0 <= i < |vs| ==> Typed(s, vs[i])
    modifies out
    ensures out.AtEnd() && out.buf == old(out.buf) + PrintAll(s, vs)
    decreases s, vs, 0
  {
    hide Print, Typed;
    for i := 0 to |vs|
      invariant out.AtEnd() && out.buf == old(out.buf) + PrintAll(s, vs[..i])
    {
      PrintAllSnoc(s, vs[..i], vs[i]);
      assert vs[..i + 1] == vs[..i] + [vs[i]];
      Encode(out, s, vs[i]);
    }
    assert vs[..|vs|] == vs;
  }

  lemma {:induction false} PrintAllSnoc(s: Shape, vs: seq<Value>, v: Value)
    requires Typed(s, v) && forall i :: 0 <= i < |vs| ==> Typed(s, vs[i])
    ensures forall i :: 0 <= i < |vs + [v]| ==> Typed(s, (vs + [v])[i])
    ensures PrintAll(s, vs + [v]) == PrintAll(s, vs) + Print(s, v)
  {
    hide Print, Typed;
    if vs == [] {
      assert [v][1..] == [];
    } else {
      PrintAllSnoc(s, vs[1..], v);
      assert (vs + [v])[1..] == vs[1..] + [v];
    }
  }

  // ----- reading -----

  class InStream {
    const data: seq<byte>
    var pos: nat

    ghost predicate Valid()
      reads this
    {
      pos <= |data|
    }

    ghost function Rest(): seq<byte>
      requires Valid()
      reads this
    {
      data[pos..]
    }

    constructor (d: seq<byte>)
      ensures Valid() && Rest() == d
    {
      data, pos := d, 0;
    }

    method AtEof() returns (eof: bool)
      requires Valid()
      ensures eof <==> Rest() == []
    {
      eof := pos == |data|;
    }

    method Get() returns (c: Option<byte>)
      requires Valid()
      modifies this
      ensures Valid()
      ensures old(Rest()) == [] ==> c == None && Rest() == []
      ensures old(Rest()) != [] ==> c == Some(old(Rest())[0]) && Rest() == old(Rest())[1..]
    {
      if pos == |data| {
        return None;
      }
      c := Some(data[pos]);
      pos := pos + 1;
    }

    method DecodeUint(n: nat) returns (r: Option<nat>)
      requires Valid()
      modifies this
      ensures Valid()
      ensures match TakeInt(n, old(Rest()))
              case None => r == None
              case Some((v, rest)) => r == Some(v) && Rest() == rest
    {
      ghost var bs := Rest();
      var value: nat := 0;
      for i := 0 to n
        invariant Valid() && i <= |bs| && Rest() == bs[i..]
        invariant value == FromBigEndian(bs[..i])
      {
        var c := Get();
        if c.None? {
          return None;
        }
        assert bs[..i + 1][..i] == bs[..i];
        value := value * 256 + c.value;
      }
      r := Some(value);
    }

    /** The length-prefixed bytes of a list or of a structure with its own length. */
    method ReadVarray(n: nat) returns (r: Option<seq<byte>>)
      requires Valid()
      modifies this
      ensures Valid()
      ensures match TakeBytes(n, old(Rest()))
              case None => r == None
              case Some((b, rest)) => r == Some(b) && Rest() == rest
    {
      var len := DecodeUint(n);
      if len.None? {
        return None;
      }
      ghost var bs := Rest();
      var b := [];
      for i := 0 to len.value
        invariant Valid() && i <= |bs| && Rest() == bs[i..] && b == bs[..i]
      {
        var c := Get();
        if c.None? {
          return None;
        }
        b := b + [c.value];
      }
      r := Some(b);
    }
  }

  lemma {:induction false} ParseTakesMinSize(s: Shape, bs: seq<byte>)
    requires Parse(s, bs).Some?
    ensures |Parse(s, bs).value.1| + MinSize(s) <= |bs|
  {
    PrintParsed(s, bs);
    PrintMinSize(s, Parse(s, bs).value.0);
  }

  /** The decoder accepts exactly what the parser accepts, with the same value and the same rest. */
  method Decode(input: InStream, s: Shape) returns (r: Option<Value>)
    requires input.Valid() && Productive(s)
    modifies input
    ensures input.Valid()
    ensures match Parse(s, old(input.Rest()))
            case None => r == None
            case Some((v, rest)) => r == Some(v) && input.Rest() == rest
    decreases s, 0
  {
    match s
    case Empty =>
      r := Some(VEmpty);
    case UInt(n) =>
      var i := input.DecodeUint(n);
      r := if i.None? then None else Some(VInt(i.value));
    case Opaque(n) =>
      var b := input.ReadVarray(n);
      r := if b.None? then None else Some(VBytes(b.value));
    case Pair(a, b) =>
      var v := Decode(input, a);
      if v.None? {
        return None;
      }
      var w := Decode(input, b);
      r := if w.None? then None else Some(VPair(v.value, w.value));
    case Sized(n, body) =>
      var d := input.ReadVarray(n);
      if d.None? {
        return None;
      }
      var inner := new InStream(d.value);
      r := Decode(inner, body);
      if r.Some? {
        var eof := inner.AtEof();
        r := if eof then r else None;
      }
    case List(n, elem) =>
      var d := input.ReadVarray(n);
      if d.None? {
        return None;
      }
      var vs := DecodeAll(d.value, elem);
      r := if vs.None? then None else Some(VList(vs.value));
    case Select(bodies) =>
      var tag := input.DecodeUint(1);
      if tag.None? || !(1 <= tag.value <= |bodies|) {
        return None;
      }
      var v := Decode(input, bodies[tag.value - 1]);
      r := if v.None? then None else Some(VTagged(tag.value, v.value));
  }

  method DecodeAll(d: seq<byte>, elem: Shape) returns (r: Option<seq<Value>>)
    requires MinSize(elem) > 0 && Productive(elem)
    ensures r == ParseAll(elem, d)
    decreases elem, 1
  {
    var inner := new InStream(d);
    var vs := [];
    var eof := inner.AtEof();
    assert ParseAll(elem, d) == Behind(vs, ParseAll(elem, d)) by {
      if ParseAll(elem, d).Some? {
        assert [] + ParseAll(elem, d).value == ParseAll(elem, d).value;
      }
    }
    while !eof
      invariant inner.Valid() && fresh(inner) && (eof <==> inner.Rest() == [])
      invariant ParseAll(elem, d) == Behind(vs, ParseAll(elem, inner.Rest()))
      decreases |inner.Rest()|
    {
      ghost var bs := inner.Rest();
      var v := Decode(inner, elem);
      if v.None? {
        return None;
      }
      ParseTakesMinSize(elem, bs);
      BehindSnoc(vs, v.value, ParseAll(elem, inner.Rest()));
      vs := vs + [v.value];
      eof := inner.AtEof();
    }
    assert vs + [] == vs;
    r := Some(vs);
  }

  ghost function Behind(vs: seq<Value>, r: Option<seq<Value>>): Option<seq<Value>> {
    if r.None? then None else Some(vs + r.value)
  }

  lemma {:induction false} BehindSnoc(vs: seq<Value>, v: Value, r: Option<seq<Value>>)
    ensures Behind(vs, Behind([v], r)) == Behind(vs + [v], r)
  {
    if r.Some? {
      assert vs + ([v] + r.value) == vs + [v] + r.value;
    }
  }

  /** The source's own copy constructor: encode into a buffer, decode from it. The copy equals the original
      exactly when the original fits its fields. */
  method Copy(s: Shape, v: Value) returns (copy: Option<Value>, left: bool)
    requires Productive(s) && Typed(s, v)
    ensures copy == Some(v) && !left <==> Fits(s, v)
  {
    var out := new OutStream();
    Encode(out, s, v);
    assert out.buf == Print(s, v);
    var input := new InStream(out.buf);
    copy := Decode(input, s);
    var eof := input.AtEof();
    left := !eof;
    RoundTripExactly(s, v);
  }
}
