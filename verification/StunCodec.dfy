/** The STUN codec as it runs: a pointer moves over a buffer, the length in the header is patched once the
    attributes are written, and the reader's loop shrinks the size that is left. */
module StunCodec {
  import opened Common
  import opened WireFormat
  import opened StunFormat

  // ----- writing -----

  method Put(buf: array<byte>, ptr: nat, bs: seq<byte>) returns (next: nat)
    requires ptr + |bs| <= buf.Length
    modifies buf
    ensures next == ptr + |bs|
    ensures buf[..ptr] == old(buf[..ptr]) && buf[ptr..next] == bs && buf[next..] == old(buf[next..])
  {
    for i := 0 to |bs|
      invariant buf[..ptr] == old(buf[..ptr]) && buf[ptr..ptr + i] == bs[..i]
      invariant buf[ptr + i..] == old(buf[ptr + i..])
    {
      ghost var was := buf[..];
      buf[ptr + i] := bs[i];
      assert buf[ptr..ptr + i] == was[ptr..ptr + i];
      assert buf[ptr..ptr + i + 1] == buf[ptr..ptr + i] + [bs[i]];
      assert bs[..i + 1] == bs[..i] + [bs[i]];
      assert old(buf[ptr + i..])[1..] == old(buf[ptr + i + 1..]);
      assert buf[ptr + i + 1..] == was[ptr + i + 1..] == was[ptr + i..][1..];
    }
    next := ptr + |bs|;
  }

  /** Header, body and, for a payload, the bytes that are skipped and keep what they held. */
  method EncodeAttr(buf: array<byte>, ptr: nat, t: nat, a: Attr) returns (next: nat)
    requires WellTyped(t, a)
    requires ptr + 4 + |Body(t, a)| + SkipOf(t, |Body(t, a)|) <= buf.Length
    modifies buf
    ensures var body := Body(t, a);
            next == ptr + 4 + |body| + SkipOf(t, |body|)
            && buf[ptr..next] == AttrBytes(t, body, Left(old(buf[..]), ptr + 4 + |body|, SkipOf(t, |body|)))
    ensures buf[..ptr] == old(buf[..ptr]) && buf[next..] == old(buf[next..])
  {
    hide Body, BigEndian, SkipOf, Declared, WellTyped, AttrBytes;
    ghost var junk := buf[..];
    var body := Body(t, a);
    var front := BigEndian(2, t) + BigEndian(2, Declared(t, |body|)) + body;
    next := Put(buf, ptr, front);
    next := next + SkipOf(t, |body|);
    LeftIsSlice(junk, ptr + 4 + |body|, SkipOf(t, |body|));
    assert buf[ptr + |front|..next] == junk[ptr + |front|..next] by {
      assert buf[ptr + |front|..next] == buf[ptr + |front|..][..SkipOf(t, |body|)];
      assert junk[ptr + |front|..next] == junk[ptr + |front|..][..SkipOf(t, |body|)];
    }
    assert buf[next..] == buf[ptr + |front|..][SkipOf(t, |body|)..];
    assert junk[next..] == junk[ptr + |front|..][SkipOf(t, |body|)..];
    assert buf[ptr..next] == buf[ptr..ptr + |front|] + buf[ptr + |front|..next];
    AttrBytesAre(t, body, Left(junk, ptr + 4 + |body|, SkipOf(t, |body|)));
  }

  lemma {:induction false} AttrBytesAre(t: nat, body: seq<byte>, pad: seq<byte>)
    ensures AttrBytes(t, body, pad) == BigEndian(2, t) + BigEndian(2, Declared(t, |body|)) + body + pad
  {
  }

  lemma {:induction false} LeftIsSlice(junk: seq<byte>, pos: nat, n: nat)
    requires pos + n <= |junk|
    ensures Left(junk, pos, n) == junk[pos..pos + n]
    decreases n
  {
    if n > 0 {
      LeftIsSlice(junk, pos + 1, n - 1);
    }
  }

  /** One more attribute at `at`, behind those written from `ptr` on; beyond it the buffer holds its `junk`. */
  method EncodeNext(buf: array<byte>, ghost ptr: nat, at: nat, t: nat, a: Attr, ghost junk: seq<byte>) returns (next: nat)
    requires WellTyped(t, a) && ptr <= at <= buf.Length == |junk|
    requires at + 4 + |Body(t, a)| + SkipOf(t, |Body(t, a)|) <= buf.Length
    requires buf[..ptr] == junk[..ptr] && buf[at..] == junk[at..]
    modifies buf
    ensures var body := Body(t, a);
            at <= next == at + 4 + |body| + SkipOf(t, |body|) <= buf.Length
            && buf[ptr..next] == old(buf[ptr..at]) + AttrBytes(t, body, Left(junk, at + 4 + |body|, SkipOf(t, |body|)))
    ensures buf[..ptr] == junk[..ptr] && buf[next..] == junk[next..]
  {
    hide Body, SkipOf, WellTyped, AttrBytes, Left;
    ghost var was := buf[..];
    ghost var body := Body(t, a);
    LeftOfTail(junk, was, at, at + 4 + |body|, SkipOf(t, |body|));
    next := EncodeAttr(buf, at, t, a);
    Extended(was, buf[..], junk, ptr, at, next);
  }

  /** The attributes from `ptr` on, in the order of writing. */
  method EncodeAttrs(buf: array<byte>, ptr: nat, order: seq<nat>, attrs: map<nat, Attr>) returns (next: nat)
    requires AllTyped(attrs) && ptr + |AttrsBytes(order, attrs, buf[..], ptr)| <= buf.Length
    modifies buf
    ensures next == ptr + |AttrsBytes(order, attrs, old(buf[..]), ptr)|
    ensures buf[ptr..next] == AttrsBytes(order, attrs, old(buf[..]), ptr)
    ensures buf[..ptr] == old(buf[..ptr]) && buf[next..] == old(buf[next..])
  {
    hide Body, SkipOf, WellTyped, AllTyped, AttrBytes, Left, AttrsBytes;
    ghost var junk := buf[..];
    ghost var all := AttrsBytes(order, attrs, junk, ptr);
    next := ptr;
    assert order[0..] == order;
    for i := 0 to |order|
      invariant ptr <= next <= buf.Length && buf[..ptr] == junk[..ptr] && buf[next..] == junk[next..]
      invariant all == buf[ptr..next] + AttrsBytes(order[i..], attrs, junk, next)
    {
      AttrsBytesStep(order[i..], attrs, junk, next);
      assert order[i..][1..] == order[i + 1..];
      if order[i] in attrs {
        TypedAt(attrs, order[i]);
        next := EncodeNext(buf, ptr, next, order[i], attrs[order[i]], junk);
      }
    }
    AttrsBytesStep(order[|order|..], attrs, junk, next);
  }

  /** Writing between `at` and `next` extends what was written from `ptr` on and leaves the rest as it was. */
  lemma {:induction false} Extended(was: seq<byte>, now: seq<byte>, junk: seq<byte>, ptr: nat, at: nat, next: nat)
    requires ptr <= at <= next <= |was| == |now| == |junk|
    requires was[..ptr] == junk[..ptr] && was[at..] == junk[at..]
    requires now[..at] == was[..at] && now[next..] == was[next..]
    ensures now[..ptr] == junk[..ptr] && now[next..] == junk[next..]
    ensures now[ptr..next] == was[ptr..at] + now[at..next]
  {
    assert now[..ptr] == now[..at][..ptr] && was[..ptr] == was[..at][..ptr];
    assert was[next..] == was[at..][next - at..] && junk[next..] == junk[at..][next - at..];
    assert now[ptr..at] == now[..at][ptr..] && was[ptr..at] == was[..at][ptr..];
  }

  lemma {:induction false} TypedAt(attrs: map<nat, Attr>, t: nat)
    requires AllTyped(attrs) && t in attrs
    ensures WellTyped(t, attrs[t])
  {
  }

  lemma {:induction false} AttrsBytesStep(order: seq<nat>, attrs: map<nat, Attr>, junk: seq<byte>, pos: nat)
    requires AllTyped(attrs)
    ensures AttrsBytes(order, attrs, junk, pos)
         == if order == [] then []
            else if order[0] !in attrs then AttrsBytes(order[1..], attrs, junk, pos)
            else
              var body := Body(order[0], attrs[order[0]]);
              var one := AttrBytes(order[0], body, Left(junk, pos + 4 + |body|, SkipOf(order[0], |body|)));
              one + AttrsBytes(order[1..], attrs, junk, pos + |one|)
    ensures order != [] && order[0] in attrs ==>
              var body := Body(order[0], attrs[order[0]]);
              |AttrsBytes(order, attrs, junk, pos)| >= 4 + |body| + SkipOf(order[0], |body|)
  {
    hide Order, Body, SkipOf, WellTyped, AllTyped;
  }

  /** What is left at `pos` depends only on what stands there. */
  lemma {:induction false} LeftOfTail(junk: seq<byte>, buf: seq<byte>, from: nat, pos: nat, n: nat)
    requires from <= |junk| == |buf| && junk[from..] == buf[from..] && from <= pos
    ensures Left(junk, pos, n) == Left(buf, pos, n)
    decreases n
  {
    if n > 0 {
      if pos < |junk| {
        assert junk[pos] == junk[from..][pos - from] == buf[pos];
      }
      LeftOfTail(junk, buf, from, pos + 1, n - 1);
    }
  }

  lemma {:induction false} AttrsOfTail(order: seq<nat>, attrs: map<nat, Attr>, junk: seq<byte>, buf: seq<byte>, from: nat, pos: nat)
    requires AllTyped(attrs) && from <= |junk| == |buf| && junk[from..] == buf[from..] && from <= pos
    ensures AttrsBytes(order, attrs, junk, pos) == AttrsBytes(order, attrs, buf, pos)
    decreases |order|
  {
    hide Order, Body, SkipOf, WellTyped, AllTyped, AttrBytes, Left, AttrsBytes;
    AttrsBytesStep(order, attrs, junk, pos);
    AttrsBytesStep(order, attrs, buf, pos);
    if order != [] {
      if order[0] in attrs {
        TypedAt(attrs, order[0]);
        var body := Body(order[0], attrs[order[0]]);
        LeftOfTail(junk, buf, from, pos + 4 + |body|, SkipOf(order[0], |body|));
        var one := AttrBytes(order[0], body, Left(junk, pos + 4 + |body|, SkipOf(order[0], |body|)));
        AttrsOfTail(order[1..], attrs, junk, buf, from, pos + |one|);
      } else {
        AttrsOfTail(order[1..], attrs, junk, buf, from, pos);
      }
    }
  }

  /** Takes the hash over the buffer zeroed up to the next multiple of 64 bytes, then writes it over the zeros. */
  method EncodeIntegrity(c: Crypto, key: seq<byte>, buf: array<byte>, ptr: nat) returns (next: nat)
    requires CryptoOk(c) && ptr + 64 <= buf.Length
    modifies buf
    ensures next == ptr + 24
    ensures buf[..next] == old(buf[..ptr]) + AttrBytes(INTEGRITY, Mac(c, key, old(buf[..ptr])), [])
  {
    var padding := if ptr % 64 == 0 then 0 else 64 - ptr % 64;
    var padded := Put(buf, ptr, Zeros(padding));
    assert buf[..padded] == ToBlocks(old(buf[..ptr]));
    var hash := c.hmac(key, buf[..padded]);
    assert hash == Mac(c, key, old(buf[..ptr]));
    AttrBytesSize(INTEGRITY, hash, []);
    hide AttrBytes;
    next := Put(buf, ptr, AttrBytes(INTEGRITY, hash, []));
    assert buf[..next] == buf[..ptr] + buf[ptr..next];
  }

  method EncodeFingerprint(c: Crypto, buf: array<byte>, ptr: nat) returns (next: nat)
    requires CryptoOk(c) && ptr + 8 <= buf.Length
    modifies buf
    ensures next == ptr + 8
    ensures buf[..next] == old(buf[..ptr]) + AttrBytes(FINGERPRINT, BigEndian(4, c.crc(old(buf[..ptr]))), [])
  {
    var sum := c.crc(buf[..ptr]);
    AttrBytesSize(FINGERPRINT, BigEndian(4, sum), []);
    hide AttrBytes, BigEndian;
    next := Put(buf, ptr, AttrBytes(FINGERPRINT, BigEndian(4, sum), []));
    assert buf[..next] == buf[..ptr] + buf[ptr..next];
  }

  lemma {:induction false} PatchedPrefix(m: Message, size: nat, was: seq<byte>, now: seq<byte>, ptr: nat, attrs: seq<byte>)
    requires |m.id| == 16 && 20 <= ptr <= |was| == |now|
    requires was[..20] == BigEndian(2, m.class_ + m.tm) + BigEndian(2, 0) + m.id && was[20..ptr] == attrs
    requires now[..2] == was[..2] && now[2..4] == BigEndian(2, size) && now[4..] == was[4..]
    ensures now[..ptr] == Header(m, size) + attrs
  {
    hide BigEndian;
    assert was[..2] == was[..20][..2] == BigEndian(2, m.class_ + m.tm);
    assert was[4..20] == was[..20][4..] == m.id;
    assert was[4..ptr] == was[4..20] + was[20..ptr];
    assert now[4..ptr] == now[4..][..ptr - 4] == was[4..][..ptr - 4] == was[4..ptr];
    assert now[..ptr] == now[..2] + now[2..4] + now[4..ptr];
  }

  /** Everything before the integrity attribute, with the length patched in. */
  method EncodePrefix(m: Message, buf: array<byte>) returns (ptr: nat)
    requires Encodable(m) && |Prefix(Order(), m, buf[..])| <= buf.Length
    modifies buf
    ensures ptr == |Prefix(Order(), m, old(buf[..]))| && buf[..ptr] == Prefix(Order(), m, old(buf[..]))
    ensures 20 <= ptr
  {
    hide Order, WellTyped, AllTyped, AttrsBytes, BigEndian, Prefix, Header;
    ghost var junk := buf[..];
    ghost var attrs := AttrsBytes(Order(), m.attrs, junk, 20);
    PrefixParts(Order(), m, junk);
    HeaderSize(m, SizeOf(m, attrs));
    ptr := Put(buf, 0, BigEndian(2, m.class_ + m.tm) + BigEndian(2, 0) + m.id);
    AttrsOfTail(Order(), m.attrs, junk, buf[..], 20, 20);
    assert buf[..20] == buf[0..20];
    ptr := EncodeAttrs(buf, ptr, Order(), m.attrs);
    ghost var was := buf[..];
    assert was[20..ptr] == attrs && was[..20] == buf[..20];
    var size := ptr - 20 + (if m.integrity.Some? then 24 else 0) + (if m.fingerprint.Some? then 8 else 0);
    var past := Put(buf, 2, BigEndian(2, size));
    PatchedPrefix(m, size, was, buf[..], ptr, attrs);
    assert buf[..ptr] == buf[..][..ptr];
  }

  ghost predicate HasRoom(m: Message, buf: seq<byte>) {
    AllTyped(m.attrs) && |Prefix(Order(), m, buf)| + 96 <= |buf|
  }

  ghost predicate IsEncoding(c: Crypto, key: seq<byte>, m: Message, junk: seq<byte>, bytes: seq<byte>) {
    AllTyped(m.attrs) && bytes == Encoded(c, key, Order(), m, junk)
  }

  /** The whole message, in any buffer with room for it and for the zeros that the hash is taken over. */
  method EncodeMessage(c: Crypto, key: seq<byte>, m: Message, buf: array<byte>) returns (n: nat)
    requires CryptoOk(c) && Encodable(m) && HasRoom(m, buf[..])
    modifies buf
    ensures n <= buf.Length && IsEncoding(c, key, m, old(buf[..]), buf[..n])
  {
    hide Order, WellTyped, AllTyped, AttrBytes, BigEndian, Mac, Prefix, CryptoOk;
    n := EncodePrefix(m, buf);
    if m.integrity.Some? {
      n := EncodeIntegrity(c, key, buf, n);
    }
    if m.fingerprint.Some? {
      n := EncodeFingerprint(c, buf, n);
    }
  }

  // ----- reading -----

  lemma {:induction false} FrontOfTail(all: seq<byte>, at: nat)
    requires at + 4 <= |all|
    ensures all[at..][..2] == all[at..at + 2] && all[at..][2..4] == all[at + 2..at + 4]
  {
  }

  lemma {:induction false} TailOfTail(all: seq<byte>, at: nat, len: nat, pad: nat)
    requires at + 4 + len + pad <= |all|
    ensures all[at..][4..4 + len] == all[at + 4..at + 4 + len]
    ensures all[at..][len + pad + 4..] == all[at + 4 + len + pad..]
  {
  }

  class Reader {
    var message: Message

    constructor (m: Message)
      ensures message == m
    {
      message := m;
    }

    /** The loop over the attributes; the size that is left never becomes negative. */
    method ParseMessage(buf: array<byte>) returns (ok: bool)
      modifies this
      ensures ok <==> StunFormat.ParseMessage(buf[..]).Some?
      ensures ok ==> message == StunFormat.ParseMessage(buf[..]).value
    {
      hide BigEndian, FromBigEndian, PadOf, KindOf, ParseValue, Store;
      if buf.Length < 20 {
        return false;
      }
      var length := FromBigEndian(buf[2..4]);
      assert buf[..][2..4] == buf[2..4] && buf[..][..2] == buf[..2] && buf[..][4..20] == buf[4..20];
      if length + 20 != buf.Length {
        return false;
      }
      message := ParseHeader(buf[..]);
      var body, size := 20, length;
      assert buf[..][20..] == buf[20..];
      while size > 0
        invariant body + size == buf.Length
        invariant ParseAttrs(message, buf[body..]) == StunFormat.ParseMessage(buf[..])
      {
        ghost var bs := buf[body..];
        if size < 4 {
          return false;
        }
        ghost var all := buf[..];
        assert bs == all[body..] && buf[body + 2..body + 4] == all[body + 2..body + 4] && buf[body..body + 2] == all[body..body + 2];
        FrontOfTail(all, body);
        var attrLen := FromBigEndian(buf[body + 2..body + 4]);
        var attrLenPad := PadOf(attrLen);
        var t := FromBigEndian(buf[body..body + 2]);
        if attrLen + attrLenPad + 4 > size {
          return false;
        }
        body := body + 4;
        size := size - 4;
        TailOfTail(all, body - 4, attrLen, attrLenPad);
        assert buf[body..body + attrLen] == all[body..body + attrLen];
        assert buf[body + attrLen + attrLenPad..] == all[body + attrLen + attrLenPad..];
        var k := KindOf(t);
        if k.None? {
          if t <= 0x7FFF {
            return false;
          }
        } else {
          var a := ParseValue(k.value, buf[body..body + attrLen]);
          if a.None? {
            return false;
          }
          message := Store(message, t, k.value, a.value);
        }
        body := body + attrLen + attrLenPad;
        size := size - attrLen - attrLenPad;
      }
      assert buf[body..] == [];
      ok := true;
    }
  }
}
