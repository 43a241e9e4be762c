/** The wire format of RELOAD structures as the structure compiler lays them out: big-endian integers,
    byte strings and lists behind a length prefix, structures with a length of their own, and selections
    by a leading tag. */
module WireFormat {
  import opened Common

  type byte = n: nat | n < 256

  /** How a structure is laid out. `n` is the number of bytes of an integer or of a length prefix; the
      bodies of a selection have the tags 1, 2, 3 and so on. */
  datatype Shape =
    | Empty
    | UInt(n: nat)
    | Opaque(n: nat)
    | Pair(first: Shape, second: Shape)
    | Sized(n: nat, body: Shape)
    | List(n: nat, elem: Shape)
    | Select(bodies: seq<Shape>)

  datatype Value =
    | VEmpty
    | VInt(i: nat)
    | VBytes(b: seq<byte>)
    | VPair(v: Value, w: Value)
    | VList(vs: seq<Value>)
    | VTagged(tag: nat, body: Value)

  /** The fields of a structure, one after the other. */
  function Fields(fs: seq<Shape>): Shape {
    if fs == [] then Empty else Pair(fs[0], Fields(fs[1..]))
  }

  /** A value of the kind that the shape calls for. */
  ghost predicate Typed(s: Shape, v: Value)
    decreases s, v
  {
    match s
    case Empty => v.VEmpty?
    case UInt(_) => v.VInt?
    case Opaque(_) => v.VBytes?
    case Pair(a, b) => v.VPair? && Typed(a, v.v) && Typed(b, v.w)
    case Sized(_, body) => Typed(body, v)
    case List(_, elem) => v.VList? && forall i :: 0 <= i < |v.vs| ==> Typed(elem, v.vs[i])
    case Select(bodies) => v.VTagged? && 1 <= v.tag <= |bodies| && Typed(bodies[v.tag - 1], v.body)
  }

  // ----- the plain printer: length, then body -----

  function Pow256(n: nat): (p: nat)
    ensures p > 0
  {
    if n == 0 then 1 else 256 * Pow256(n - 1)
  }

  /** The low `n` bytes of a number, most significant first. */
  function BigEndian(n: nat, v: nat): (bs: seq<byte>)
    ensures |bs| == n
  {
    if n == 0 then [] else BigEndian(n - 1, v / 256) + [v % 256]
  }

  function Print(s: Shape, v: Value): seq<byte>
    requires Typed(s, v)
    decreases s, v
  {
    match s
    case Empty => []
    case UInt(n) => BigEndian(n, v.i)
    case Opaque(n) => BigEndian(n, |v.b|) + v.b
    case Pair(a, b) => Print(a, v.v) + Print(b, v.w)
    case Sized(n, body) => BigEndian(n, |Print(body, v)|) + Print(body, v)
    case List(n, elem) => BigEndian(n, |PrintAll(elem, v.vs)|) + PrintAll(elem, v.vs)
    case Select(bodies) => BigEndian(1, v.tag) + Print(bodies[v.tag - 1], v.body)
  }

  function PrintAll(s: Shape, vs: seq<Value>): seq<byte>
    requires forall i :: 0 <= i < |vs| ==> Typed(s, vs[i])
    decreases s, vs
  {
    if vs == [] then [] else Print(s, vs[0]) + PrintAll(s, vs[1..])
  }

  // ----- the parser -----

  function FromBigEndian(bs: seq<byte>): nat {
    if bs == [] then 0 else FromBigEndian(bs[..|bs| - 1]) * 256 + bs[|bs| - 1]
  }

  /** The first `n` bytes as a number, and what follows. */
  function TakeInt(n: nat, bs: seq<byte>): Option<(nat, seq<byte>)> {
    if |bs| < n then None else Some((FromBigEndian(bs[..n]), bs[n..]))
  }

  /** The bytes behind an `n`-byte length prefix, and what follows. */
  function TakeBytes(n: nat, bs: seq<byte>): (r: Option<(seq<byte>, seq<byte>)>)
    ensures r.Some? ==> |r.value.0| + |r.value.1| + n == |bs|
  {
    match TakeInt(n, bs)
    case None => None
    case Some((len, rest)) => if |rest| < len then None else Some((rest[..len], rest[len..]))
  }

  /** None stands for a parse exception, for a tag without a body, and for a list element that takes no
      bytes, on which the source would not terminate. */
  function Parse(s: Shape, bs: seq<byte>): (r: Option<(Value, seq<byte>)>)
    ensures r.Some? ==> |r.value.1| <= |bs|
    decreases s, |bs|, 0
  {
    match s
    case Empty => Some((VEmpty, bs))
    case UInt(n) =>
      (match TakeInt(n, bs)
       case None => None
       case Some((i, rest)) => Some((VInt(i), rest)))
    case Opaque(n) =>
      (match TakeBytes(n, bs)
       case None => None
       case Some((b, rest)) => Some((VBytes(b), rest)))
    case Pair(a, b) =>
      (match Parse(a, bs)
       case None => None
       case Some((v, rest)) =>
         match Parse(b, rest)
         case None => None
         case Some((w, rest')) => Some((VPair(v, w), rest')))
    case Sized(n, body) =>
      (match TakeBytes(n, bs)
       case None => None
       case Some((inner, rest)) =>
         match Parse(body, inner)
         case None => None
         case Some((v, left)) => if left == [] then Some((v, rest)) else None)
    case List(n, elem) =>
      (match TakeBytes(n, bs)
       case None => None
       case Some((inner, rest)) =>
         match ParseAll(elem, inner)
         case None => None
         case Some(vs) => Some((VList(vs), rest)))
    case Select(bodies) =>
      match TakeInt(1, bs)
      case None => None
      case Some((tag, rest)) =>
        if !(1 <= tag <= |bodies|) then None
        else
          match Parse(bodies[tag - 1], rest)
          case None => None
          case Some((v, rest')) => Some((VTagged(tag, v), rest'))
  }

  function ParseAll(s: Shape, bs: seq<byte>): Option<seq<Value>>
    decreases s, |bs|, 1
  {
    if bs == [] then Some([])
    else
      match Parse(s, bs)
      case None => None
      case Some((v, rest)) =>
        if |rest| >= |bs| then None
        else
          match ParseAll(s, rest)
          case None => None
          case Some(vs) => Some([v] + vs)
  }

  // ----- what fits -----

  /** Integers, lengths and tags fit the bytes they are given. */
  ghost predicate Fits(s: Shape, v: Value)
    requires Typed(s, v)
    decreases s, v
  {
    match s
    case Empty => true
    case UInt(n) => v.i < Pow256(n)
    case Opaque(n) => |v.b| < Pow256(n)
    case Pair(a, b) => Fits(a, v.v) && Fits(b, v.w)
    case Sized(n, body) => |Print(body, v)| < Pow256(n) && Fits(body, v)
    case List(n, elem) => |PrintAll(elem, v.vs)| < Pow256(n) && forall i :: 0 <= i < |v.vs| ==> Fits(elem, v.vs[i])
    case Select(bodies) => v.tag < 256 && Fits(bodies[v.tag - 1], v.body)
  }

  function MinSize(s: Shape): nat {
    match s
    case Empty => 0
    case UInt(n) => n
    case Opaque(n) => n
    case Pair(a, b) => MinSize(a) + MinSize(b)
    case Sized(n, _) => n
    case List(n, _) => n
    case Select(_) => 1
  }

  /** No list has elements that could be empty. */
  ghost predicate Productive(s: Shape) {
    match s
    case Empty => true
    case UInt(_) => true
    case Opaque(_) => true
    case Pair(a, b) => Productive(a) && Productive(b)
    case Sized(_, body) => Productive(body)
    case List(_, elem) => MinSize(elem) > 0 && Productive(elem)
    case Select(bodies) => forall i :: 0 <= i < |bodies| ==> Productive(bodies[i])
  }

  lemma {:induction false} PrintMinSize(s: Shape, v: Value)
    requires Typed(s, v)
    ensures |Print(s, v)| >= MinSize(s)
    decreases s
  {
    match s
    case Pair(a, b) => PrintMinSize(a, v.v); PrintMinSize(b, v.w);
    case _ =>
  }

  // ----- integers -----

  /** The most significant byte comes first. */
  lemma {:induction false} TwoBytes(n: nat)
    ensures BigEndian(2, n) == [n / 256 % 256, n % 256]
  {
    assert BigEndian(1, n / 256) == [] + [n / 256 % 256];
  }

  lemma {:induction false} FourBytes(n: nat)
    ensures BigEndian(4, n) == [n / 0x100_0000 % 256, n / 0x1_0000 % 256, n / 256 % 256, n % 256]
  {
    TwoBytes(n / 256 / 256);
    assert n / 256 / 256 == n / 0x1_0000 && n / 256 / 256 / 256 == n / 0x100_0000;
    assert BigEndian(3, n / 256) == BigEndian(2, n / 256 / 256) + [n / 256 % 256];
  }

  lemma {:induction false} DivBelow(v: nat, p: nat)
    requires p > 0 && v < 256 * p
    ensures v / 256 < p
  {
  }

  lemma {:induction false} IntRoundTrip(n: nat, v: nat)
    requires v < Pow256(n)
    ensures FromBigEndian(BigEndian(n, v)) == v
  {
    if n > 0 {
      DivBelow(v, Pow256(n - 1));
      IntRoundTrip(n - 1, v / 256);
      assert BigEndian(n, v)[..n - 1] == BigEndian(n - 1, v / 256);
    }
  }

  lemma {:induction false} IntCanonical(bs: seq<byte>)
    ensures FromBigEndian(bs) < Pow256(|bs|)
    ensures BigEndian(|bs|, FromBigEndian(bs)) == bs
  {
    if bs != [] {
      var front, last := bs[..|bs| - 1], bs[|bs| - 1];
      IntCanonical(front);
      var v := FromBigEndian(front) * 256 + last;
      assert v / 256 == FromBigEndian(front) && v % 256 == last;
      assert bs == front + [last];
    }
  }

  lemma {:induction false} TakeIntPrinted(n: nat, v: nat, rest: seq<byte>)
    requires v < Pow256(n)
    ensures TakeInt(n, BigEndian(n, v) + rest) == Some((v, rest))
  {
    IntRoundTrip(n, v);
    assert (BigEndian(n, v) + rest)[..n] == BigEndian(n, v);
    assert (BigEndian(n, v) + rest)[n..] == rest;
  }

  lemma {:induction false} TakeBytesPrinted(n: nat, b: seq<byte>, rest: seq<byte>)
    requires |b| < Pow256(n)
    ensures TakeBytes(n, BigEndian(n, |b|) + b + rest) == Some((b, rest))
  {
    TakeIntPrinted(n, |b|, b + rest);
    assert BigEndian(n, |b|) + b + rest == BigEndian(n, |b|) + (b + rest);
    assert (b + rest)[..|b|] == b && (b + rest)[|b|..] == rest;
  }

  lemma {:induction false} TakenIntPrints(n: nat, bs: seq<byte>)
    requires TakeInt(n, bs).Some?
    ensures TakeInt(n, bs).value.0 < Pow256(n)
    ensures bs == BigEndian(n, TakeInt(n, bs).value.0) + TakeInt(n, bs).value.1
  {
    IntCanonical(bs[..n]);
    assert bs == bs[..n] + bs[n..];
  }

  lemma {:induction false} TakenBytesPrint(n: nat, bs: seq<byte>)
    requires TakeBytes(n, bs).Some?
    ensures var (b, rest) := TakeBytes(n, bs).value;
            |b| < Pow256(n) && bs == BigEndian(n, |b|) + b + rest
  {
    TakenIntPrints(n, bs);
    var (b, rest) := TakeBytes(n, bs).value;
    var after := TakeInt(n, bs).value.1;
    assert after == b + rest;
    assert BigEndian(n, |b|) + b + rest == BigEndian(n, |b|) + (b + rest);
  }

  // ----- decoding what was encoded -----

  /** A value that fits is read back from its own bytes, and nothing beyond them is touched. */
  lemma {:induction false} ParsePrinted(s: Shape, v: Value, rest: seq<byte>)
    requires Productive(s) && Typed(s, v) && Fits(s, v)
    ensures Parse(s, Print(s, v) + rest) == Some((v, rest))
    decreases s, v, 1
  {
    assert Pow256(1) == 256;
    hide BigEndian, FromBigEndian, Pow256, PrintAll, TakeInt, TakeBytes, MinSize;
    match s
    case Empty => assert [] + rest == rest;
    case UInt(n) => TakeIntPrinted(n, v.i, rest);
    case Opaque(n) => TakeBytesPrinted(n, v.b, rest);
    case Pair(a, b) => ParsePrintedPair(a, b, v.v, v.w, rest);
    case Sized(n, body) =>
      TakeBytesPrinted(n, Print(body, v), rest);
      ParsePrinted(body, v, []);
      assert Print(body, v) + [] == Print(body, v);
    case List(n, elem) =>
      TakeBytesPrinted(n, PrintAll(elem, v.vs), rest);
      ParseAllPrinted(elem, v.vs);
    case Select(bodies) => ParsePrintedSelect(bodies, v.tag, v.body, rest);
  }

  lemma {:induction false} ParsePrintedPair(a: Shape, b: Shape, v: Value, w: Value, rest: seq<byte>)
    requires Productive(Pair(a, b)) && Typed(Pair(a, b), VPair(v, w)) && Fits(Pair(a, b), VPair(v, w))
    ensures Parse(Pair(a, b), Print(Pair(a, b), VPair(v, w)) + rest) == Some((VPair(v, w), rest))
    decreases Pair(a, b), VPair(v, w), 0
  {
    hide BigEndian, FromBigEndian, Pow256, TakeInt, TakeBytes, PrintAll;
    var all := Print(Pair(a, b), VPair(v, w)) + rest;
    assert all == Print(a, v) + (Print(b, w) + rest);
    ParsePrinted(a, v, Print(b, w) + rest);
    ParsePrinted(b, w, rest);
  }

  lemma {:induction false} ParsePrintedSelect(bodies: seq<Shape>, tag: nat, v: Value, rest: seq<byte>)
    requires Productive(Select(bodies)) && Typed(Select(bodies), VTagged(tag, v)) && Fits(Select(bodies), VTagged(tag, v))
    ensures Parse(Select(bodies), Print(Select(bodies), VTagged(tag, v)) + rest) == Some((VTagged(tag, v), rest))
    decreases Select(bodies), VTagged(tag, v), 0
  {
    assert Pow256(1) == 256;
    hide BigEndian, FromBigEndian, Pow256, TakeInt, TakeBytes, PrintAll;
    var all := Print(Select(bodies), VTagged(tag, v)) + rest;
    assert all == BigEndian(1, tag) + (Print(bodies[tag - 1], v) + rest);
    TakeIntPrinted(1, tag, Print(bodies[tag - 1], v) + rest);
    ParsePrinted(bodies[tag - 1], v, rest);
  }

  lemma {:induction false} ParseAllPrinted(s: Shape, vs: seq<Value>)
    requires Productive(s) && MinSize(s) > 0
    requires forall i :: 0 <= i < |vs| ==> Typed(s, vs[i]) && Fits(s, vs[i])
    ensures ParseAll(s, PrintAll(s, vs)) == Some(vs)
    decreases s, vs, 0
  {
    hide Parse, Print, Typed, Fits, MinSize, Productive;
    if vs != [] {
      PrintMinSize(s, vs[0]);
      ParsePrinted(s, vs[0], PrintAll(s, vs[1..]));
      ParseAllPrinted(s, vs[1..]);
      assert vs == [vs[0]] + vs[1..];
    }
  }

  // ----- encoding what was decoded -----

  /** Whatever parses is the printed form of the value it parses to. */
  lemma {:induction false} PrintParsed(s: Shape, bs: seq<byte>)
    requires Parse(s, bs).Some?
    ensures var (v, rest) := Parse(s, bs).value;
            Typed(s, v) && Fits(s, v) && bs == Print(s, v) + rest
    decreases s, |bs|, 1
  {
    hide BigEndian, FromBigEndian, Pow256;
    match s
    case Empty =>
    case UInt(n) => TakenIntPrints(n, bs);
    case Opaque(n) => TakenBytesPrint(n, bs);
    case Pair(a, b) => PrintParsedPair(a, b, bs);
    case Sized(n, body) =>
      TakenBytesPrint(n, bs);
      PrintParsed(body, TakeBytes(n, bs).value.0);
      assert Print(body, Parse(s, bs).value.0) == TakeBytes(n, bs).value.0;
    case List(n, elem) =>
      TakenBytesPrint(n, bs);
      PrintAllParsed(elem, TakeBytes(n, bs).value.0);
    case Select(bodies) => PrintParsedSelect(bodies, bs);
  }

  lemma {:induction false} PrintParsedPair(a: Shape, b: Shape, bs: seq<byte>)
    requires Parse(Pair(a, b), bs).Some?
    ensures var (v, rest) := Parse(Pair(a, b), bs).value;
            Typed(Pair(a, b), v) && Fits(Pair(a, b), v) && bs == Print(Pair(a, b), v) + rest
    decreases Pair(a, b), |bs|, 0
  {
    hide BigEndian, FromBigEndian, Pow256, PrintAll, TakeInt, TakeBytes;
    var (v, middle) := Parse(a, bs).value;
    var (w, rest) := Parse(b, middle).value;
    assert Parse(Pair(a, b), bs) == Some((VPair(v, w), rest));
    PrintParsed(a, bs);
    PrintParsed(b, middle);
    assert bs == Print(a, v) + (Print(b, w) + rest);
  }

  lemma {:induction false} SelectParses(bodies: seq<Shape>, bs: seq<byte>)
    requires Parse(Select(bodies), bs).Some?
    ensures TakeInt(1, bs).Some?
    ensures var (tag, inner) := TakeInt(1, bs).value;
            && 1 <= tag <= |bodies| && |inner| <= |bs| && Parse(bodies[tag - 1], inner).Some?
            && var (v, rest) := Parse(bodies[tag - 1], inner).value;
               Parse(Select(bodies), bs) == Some((VTagged(tag, v), rest))
  {
    hide FromBigEndian;
  }

  lemma {:induction false} PrintParsedSelect(bodies: seq<Shape>, bs: seq<byte>)
    requires Parse(Select(bodies), bs).Some?
    ensures var (v, rest) := Parse(Select(bodies), bs).value;
            Typed(Select(bodies), v) && Fits(Select(bodies), v) && bs == Print(Select(bodies), v) + rest
    decreases Select(bodies), |bs|, 0
  {
    assert Pow256(1) == 256;
    SelectParses(bodies, bs);
    hide BigEndian, FromBigEndian, Pow256, PrintAll, TakeInt, TakeBytes, Parse;
    var (tag, inner) := TakeInt(1, bs).value;
    var (v, rest) := Parse(bodies[tag - 1], inner).value;
    TakenIntPrints(1, bs);
    PrintParsed(bodies[tag - 1], inner);
    assert bs == BigEndian(1, tag) + (Print(bodies[tag - 1], v) + rest);
  }

  lemma {:induction false} PrintAllParsed(s: Shape, bs: seq<byte>)
    requires ParseAll(s, bs).Some?
    ensures var vs := ParseAll(s, bs).value;
            (forall i :: 0 <= i < |vs| ==> Typed(s, vs[i]) && Fits(s, vs[i])) && bs == PrintAll(s, vs)
    decreases s, |bs|, 2
  {
    if bs != [] {
      PrintParsed(s, bs);
      var (v, rest) := Parse(s, bs).value;
      PrintAllParsed(s, rest);
      var vs := ParseAll(s, bs).value;
      assert vs[0] == v && vs[1..] == ParseAll(s, rest).value;
    }
  }

  /** A structure survives the wire exactly when its integers and lengths fit their fields. */
  lemma {:induction false} RoundTripExactly(s: Shape, v: Value)
    requires Productive(s) && Typed(s, v)
    ensures Parse(s, Print(s, v)) == Some((v, [])) <==> Fits(s, v)
  {
    if Fits(s, v) {
      ParsePrinted(s, v, []);
      assert Print(s, v) + [] == Print(s, v);
    }
    if Parse(s, Print(s, v)) == Some((v, [])) {
      PrintParsed(s, Print(s, v));
    }
  }
}
