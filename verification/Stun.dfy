/** STUN Binding messages (RFC 5389): the request, the answer a peer sends, and the two parsers that read answers. */
module Stun {
  import opened Bytes
  import opened Datagrams

  const HEADER: nat := 20
  const BINDING_REQUEST: nat := 0x0001
  const BINDING_RESPONSE: nat := 0x0101
  const MAPPED_ADDRESS: nat := 0x0001
  const XOR_MAPPED_ADDRESS: nat := 0x0020
  const IPV4: byte := 0x01
  const COOKIE_HIGH: int := 0x2112

  // ---------------------------------------------------------------- exclusive or

  function XorBits(x: nat, y: nat, bits: nat): (z: nat) {
    if bits == 0 then 0 else 2 * XorBits(x / 2, y / 2, bits - 1) + (if x % 2 == y % 2 then 0 else 1)
  }

  lemma BitBehind(w: nat, bit: nat)
    requires bit < 2
    ensures (2 * w + bit) / 2 == w && (2 * w + bit) % 2 == bit
  {
  }

  lemma {:induction false} XorBitsTwice(x: nat, y: nat, bits: nat, bound: nat)
    requires x < bound && bound == Pow2(bits)
    ensures XorBits(x, y, bits) < bound && XorBits(XorBits(x, y, bits), y, bits) == x
  {
    if bits > 0 {
      XorBitsTwice(x / 2, y / 2, bits - 1, Pow2(bits - 1));
      BitBehind(XorBits(x / 2, y / 2, bits - 1), if x % 2 == y % 2 then 0 else 1);
    }
  }

  function Pow2(n: nat): nat {
    if n == 0 then 1 else 2 * Pow2(n - 1)
  }

  function Xor8(x: byte, y: byte): byte {
    assert Pow2(8) == 256;
    XorBitsTwice(x, y, 8, 256);
    XorBits(x, y, 8)
  }

  lemma Xor8Twice(x: byte, y: byte)
    ensures Xor8(Xor8(x, y), y) == x
  {
    assert Pow2(8) == 256;
    XorBitsTwice(x, y, 8, 256);
  }

  function XorBytes(a: seq<byte>, b: seq<byte>): (r: seq<byte>)
    requires |a| == |b|
    ensures |r| == |a|
  {
    seq(|a|, i requires 0 <= i < |a| => Xor8(a[i], b[i]))
  }

  lemma XorBytesTwice(a: seq<byte>, b: seq<byte>)
    requires |a| == |b|
    ensures XorBytes(XorBytes(a, b), b) == a
  {
    forall i | 0 <= i < |a| ensures XorBytes(XorBytes(a, b), b)[i] == a[i] {
      Xor8Twice(a[i], b[i]);
    }
  }

  /** On words, exclusive or acts on each byte. */
  function Xor16(x: nat, y: nat): (z: nat)
    requires x < TWO16 && y < TWO16
    ensures z < TWO16
  {
    Read16(XorBytes(BE16(x), BE16(y)))
  }

  function Xor32(x: nat, y: nat): (z: nat)
    requires x < TWO32 && y < TWO32
    ensures z < TWO32
  {
    Read32(XorBytes(BE32(x), BE32(y)))
  }

  lemma WriteBack16(b: seq<byte>)
    requires |b| == 2
    ensures BE16(Read16(b)) == b
  {
  }

  lemma WriteBack32(b: seq<byte>)
    requires |b| == 4
    ensures BE32(Read32(b)) == b
  {
    hide Read16, BE16;
    var high, low := Read16(b[..2]), Read16(b[2..]);
    WriteBack16(b[..2]);
    WriteBack16(b[2..]);
    assert Read32(b) / TWO16 == high && Read32(b) % TWO16 == low;
  }

  lemma Xor16Twice(x: nat, y: nat)
    requires x < TWO16 && y < TWO16
    ensures Xor16(Xor16(x, y), y) == x
  {
    WriteBack16(XorBytes(BE16(x), BE16(y)));
    XorBytesTwice(BE16(x), BE16(y));
    ReadBack16(x);
  }

  lemma Xor32Twice(x: nat, y: nat)
    requires x < TWO32 && y < TWO32
    ensures Xor32(Xor32(x, y), y) == x
  {
    WriteBack32(XorBytes(BE32(x), BE32(y)));
    XorBytesTwice(BE32(x), BE32(y));
    ReadBack32(x);
  }

  // ---------------------------------------------------------------- well-formed messages (sections 6 and 15)

  datatype Attribute = Attribute(kind: nat, value: seq<byte>, padding: seq<byte>)

  function Padded(length: nat): nat {
    (length + 3) / 4 * 4
  }

  predicate WellFormed(a: Attribute) {
    a.kind < TWO16 && |a.value| < TWO16 && |a.value| + |a.padding| == Padded(|a.value|)
  }

  function EncodeAttribute(a: Attribute): (bytes: seq<byte>)
    requires WellFormed(a)
    ensures |bytes| == 4 + Padded(|a.value|)
  {
    BE16(a.kind) + BE16(|a.value|) + a.value + a.padding
  }

  function EncodeAttributes(attrs: seq<Attribute>): seq<byte>
    requires forall a :: a in attrs ==> WellFormed(a)
  {
    if attrs == [] then [] else EncodeAttribute(attrs[0]) + EncodeAttributes(attrs[1..])
  }

  predicate IsTid(tid: seq<byte>) {
    |tid| == 12
  }

  function Header(kind: nat, length: nat, tid: seq<byte>): (bytes: seq<byte>)
    requires kind < TWO16 && length < TWO16 && IsTid(tid)
    ensures |bytes| == HEADER
  {
    BE16(kind) + BE16(length) + BE32(MAGIC_COOKIE) + tid
  }

  predicate FitsMessage(attrs: seq<Attribute>) {
    (forall a :: a in attrs ==> WellFormed(a)) && |EncodeAttributes(attrs)| < TWO16
  }

  function Message(kind: nat, tid: seq<byte>, attrs: seq<Attribute>): seq<byte>
    requires kind < TWO16 && IsTid(tid) && FitsMessage(attrs)
  {
    Header(kind, |EncodeAttributes(attrs)|, tid) + EncodeAttributes(attrs)
  }

  /** Sections 15.1 and 15.2, for IPv4. */
  function MappedValue(port: nat, addr: nat): seq<byte>
    requires port < TWO16 && addr < TWO32
  {
    [0, IPV4] + BE16(port) + BE32(addr)
  }

  function XorMappedValue(port: nat, addr: nat): seq<byte>
    requires port < TWO16 && addr < TWO32
  {
    MappedValue(Xor16(port, COOKIE_HIGH), Xor32(addr, MAGIC_COOKIE))
  }

  function XorMapped(port: nat, addr: nat): (a: Attribute)
    requires port < TWO16 && addr < TWO32
    ensures WellFormed(a)
  {
    Attribute(XOR_MAPPED_ADDRESS, XorMappedValue(port, addr), [])
  }

  // ---------------------------------------------------------------- scanning the attributes

  /** `Overrun`: the scan wants bytes behind the end of the datagram. */
  datatype Outcome = Found(port: nat, addr: nat) | NotFound | Overrun

  /** Which attributes a scan takes an address from; the ICE agent wants the masked one only. */
  predicate Takes(xorOnly: bool, kind: nat) {
    kind == XOR_MAPPED_ADDRESS || (!xorOnly && kind == MAPPED_ADDRESS)
  }

  function AddressIn(kind: nat, value: seq<byte>): (r: Outcome)
    requires |value| >= 8
    ensures r.Found?
  {
    var port, addr := Read16(value[2..4]), Read32(value[4..8]);
    if kind == XOR_MAPPED_ADDRESS then Found(Xor16(port, COOKIE_HIGH), Xor32(addr, MAGIC_COOKIE))
    else Found(port, addr)
  }

  datatype Step = Stop(result: Outcome) | Skip(next: nat)

  /** What the scan does with the attribute at `pos`. */
  function ScanOne(data: seq<byte>, pos: nat, xorOnly: bool): (s: Step)
    ensures s.Skip? ==> s.next >= pos + 4
  {
    if pos + 4 > |data| then Stop(Overrun)
    else
      var kind, length := Read16(data[pos..pos + 2]), Read16(data[pos + 2..pos + 4]);
      if !Takes(xorOnly, kind) || length < 8 then Skip(pos + 4 + Padded(length))
      else if pos + 6 > |data| then Stop(Overrun)
      else if data[pos + 5] != IPV4 then Skip(pos + 4 + Padded(length))
      else if pos + 12 > |data| then Stop(Overrun)
      else Stop(AddressIn(kind, data[pos + 4..pos + 12]))
  }

  function Scan(data: seq<byte>, pos: nat, end: nat, xorOnly: bool): Outcome
    decreases end - pos
  {
    if pos + 4 > end then NotFound
    else
      match ScanOne(data, pos, xorOnly)
      case Stop(result) => result
      case Skip(next) => Scan(data, next, end, xorOnly)
  }

  /** What a message means: its first attribute that carries an IPv4 address of a wanted kind. */
  predicate Usable(a: Attribute, xorOnly: bool) {
    Takes(xorOnly, a.kind) && |a.value| >= 8 && a.value[1] == IPV4
  }

  function FirstAddress(attrs: seq<Attribute>, xorOnly: bool): Outcome {
    if attrs == [] then NotFound
    else if Usable(attrs[0], xorOnly) then AddressIn(attrs[0].kind, attrs[0].value)
    else FirstAddress(attrs[1..], xorOnly)
  }

  lemma EncodedFields(a: Attribute, before: seq<byte>, after: seq<byte>)
    requires WellFormed(a)
    ensures var data, pos := before + EncodeAttribute(a) + after, |before|;
      && pos + 4 + Padded(|a.value|) <= |data|
      && Read16(data[pos..pos + 2]) == a.kind && Read16(data[pos + 2..pos + 4]) == |a.value|
      && data[pos + 4..pos + 4 + |a.value|] == a.value
  {
  }

  /** One attribute in front of the scan is taken if it is usable and stepped over otherwise. */
  lemma ScanOneReads(data: seq<byte>, before: seq<byte>, a: Attribute, after: seq<byte>, xorOnly: bool)
    requires WellFormed(a) && data == before + EncodeAttribute(a) + after
    ensures |before| + 4 <= |data|
    ensures ScanOne(data, |before|, xorOnly)
         == if Usable(a, xorOnly) then Stop(AddressIn(a.kind, a.value)) else Skip(|before + EncodeAttribute(a)|)
  {
    var pos := |before|;
    EncodedFields(a, before, after);
    if |a.value| >= 8 {
      var value := data[pos + 4..pos + 4 + |a.value|];
      assert data[pos + 5] == value[1];
      var taken := data[pos + 4..pos + 12];
      assert taken == value[..8];
      assert taken[2..4] == value[2..4] && taken[4..8] == value[4..8];
    }
  }

  /** On tiling attributes the scan finds exactly the first usable one, and never leaves the datagram. */
  lemma {:induction false} ScanFindsFirst(data: seq<byte>, before: seq<byte>, attrs: seq<Attribute>, xorOnly: bool)
    requires forall a :: a in attrs ==> WellFormed(a)
    requires data == before + EncodeAttributes(attrs)
    ensures Scan(data, |before|, |data|, xorOnly) == FirstAddress(attrs, xorOnly)
    decreases |attrs|
  {
    if attrs != [] {
      var encoded, after := EncodeAttribute(attrs[0]), EncodeAttributes(attrs[1..]);
      assert data == before + encoded + after by {
        assert EncodeAttributes(attrs) == encoded + after;
      }
      ScanFindsFirst(data, before + encoded, attrs[1..], xorOnly);
      ScanOneReads(data, before, attrs[0], after, xorOnly);
    }
  }

  // ---------------------------------------------------------------- the parsers

  predicate ParseHeader(data: seq<byte>, tid: seq<byte>) {
    && |data| >= HEADER && IsTid(tid)
    && Read16(data[..2]) == BINDING_RESPONSE && Read32(data[4..8]) == MAGIC_COOKIE && data[8..20] == tid
  }

  function Parse(data: seq<byte>, tid: seq<byte>): Outcome {
    if ParseHeader(data, tid) then Scan(data, HEADER, HEADER + Read16(data[2..4]), false) else NotFound
  }

  lemma HeaderFields(kind: nat, length: nat, tid: seq<byte>, rest: seq<byte>)
    requires kind < TWO16 && length < TWO16 && IsTid(tid)
    ensures var data := Header(kind, length, tid) + rest;
      && Read16(data[..2]) == kind && Read16(data[2..4]) == length
      && Read32(data[4..8]) == MAGIC_COOKIE && data[8..20] == tid && data[20..] == rest
  {
  }

  /** A well-formed answer yields exactly what its first usable attribute says, under its own transaction id only. */
  lemma ParseIsFirstAddress(tid: seq<byte>, expected: seq<byte>, attrs: seq<Attribute>)
    requires IsTid(tid) && IsTid(expected) && FitsMessage(attrs)
    ensures Parse(Message(BINDING_RESPONSE, tid, attrs), expected)
         == if tid == expected then FirstAddress(attrs, false) else NotFound
  {
    var body := EncodeAttributes(attrs);
    var header := Header(BINDING_RESPONSE, |body|, tid);
    HeaderFields(BINDING_RESPONSE, |body|, tid, body);
    ScanFindsFirst(header + body, header, attrs, false);
  }

  lemma AddressInMapped(port: nat, addr: nat)
    requires port < TWO16 && addr < TWO32
    ensures AddressIn(MAPPED_ADDRESS, MappedValue(port, addr)) == Found(port, addr)
    ensures AddressIn(XOR_MAPPED_ADDRESS, XorMappedValue(port, addr)) == Found(port, addr)
  {
    forall p: nat, q: nat | p < TWO16 && q < TWO32
      ensures AddressIn(MAPPED_ADDRESS, MappedValue(p, q)) == Found(p, q)
    {
      var v := MappedValue(p, q);
      assert v[2..4] == BE16(p) && v[4..8] == BE32(q);
      ReadBack16(p);
      ReadBack32(q);
    }
    var p, q := Xor16(port, COOKIE_HIGH), Xor32(addr, MAGIC_COOKIE);
    assert AddressIn(MAPPED_ADDRESS, MappedValue(p, q)) == Found(p, q);
    Xor16Twice(port, COOKIE_HIGH);
    Xor32Twice(addr, MAGIC_COOKIE);
  }

  lemma {:induction false} SkipUnusable(before: seq<Attribute>, a: Attribute, after: seq<Attribute>, xorOnly: bool)
    requires forall b :: b in before ==> !Usable(b, xorOnly)
    requires Usable(a, xorOnly)
    ensures FirstAddress(before + [a] + after, xorOnly) == AddressIn(a.kind, a.value)
  {
    var attrs := before + [a] + after;
    if before != [] {
      assert attrs[0] == before[0] && attrs[1..] == before[1..] + [a] + after;
      SkipUnusable(before[1..], a, after, xorOnly);
    }
  }

  /** The address is recovered past any attributes the parser does not use, whatever follows it. */
  lemma AddressRecovered(
      tid: seq<byte>, before: seq<Attribute>, port: nat, addr: nat, after: seq<Attribute>)
    requires IsTid(tid) && port < TWO16 && addr < TWO32
    requires FitsMessage(before + [XorMapped(port, addr)] + after)
    requires forall b :: b in before ==> !Usable(b, false)
    ensures Parse(Message(BINDING_RESPONSE, tid, before + [XorMapped(port, addr)] + after), tid) == Found(port, addr)
  {
    SkipUnusable(before, XorMapped(port, addr), after, false);
    AddressInMapped(port, addr);
    ParseIsFirstAddress(tid, tid, before + [XorMapped(port, addr)] + after);
  }

  // ---------------------------------------------------------------- reading behind the datagram

  /** With `rest` in front of the scan and `announced` bytes to go by the header: the next step of the scan, or the one
    * behind an attribute that is cut short, wants bytes that are not there. */
  predicate WantsMore(rest: seq<byte>, announced: int, xorOnly: bool) {
    && announced >= 4
    && (|rest| < 4 ||
        var kind, length := Read16(rest[..2]), Read16(rest[2..4]);
        var wanted := Takes(xorOnly, kind) && length >= 8;
        if wanted && |rest| < 6 then true
        else if wanted && rest[5] == IPV4 then |rest| < 12
        else 4 + Padded(length) > |rest| && announced >= 8 + Padded(length))
  }

  /** From `pos` on there are whole attributes without a usable address and then `rest`, at which the scan overruns. */
  predicate OverrunsBehind(
      data: seq<byte>, pos: nat, end: nat, xorOnly: bool, attrs: seq<Attribute>, rest: seq<byte>)
    requires pos <= |data|
  {
    && (forall a :: a in attrs ==> WellFormed(a) && !Usable(a, xorOnly))
    && data[pos..] == EncodeAttributes(attrs) + rest
    && WantsMore(rest, end - (|data| - |rest|), xorOnly)
  }

  lemma FieldsAhead(data: seq<byte>, pos: nat)
    requires pos + 4 <= |data|
    ensures data[pos..][..2] == data[pos..pos + 2] && data[pos..][2..4] == data[pos + 2..pos + 4]
  {
  }

  /** Where the scan overruns before it has stepped over another whole attribute. */
  lemma OverrunsHereIff(data: seq<byte>, pos: nat, end: nat, xorOnly: bool)
    requires pos <= |data|
    requires match ScanOne(data, pos, xorOnly) case Stop(_) => true case Skip(next) => next > |data|
    ensures Scan(data, pos, end, xorOnly).Overrun? <==> WantsMore(data[pos..], end - pos, xorOnly)
  {
    hide Read16, Padded, AddressIn, Takes;
    if pos + 4 <= |data| {
      FieldsAhead(data, pos);
    }
  }

  lemma WantsNoMore(data: seq<byte>, pos: nat, end: nat, xorOnly: bool, next: nat)
    requires pos <= |data| && ScanOne(data, pos, xorOnly) == Skip(next) && next <= |data|
    ensures !WantsMore(data[pos..], end - pos, xorOnly)
  {
    hide Read16, Padded, AddressIn, Takes;
    if pos + 4 <= |data| {
      FieldsAhead(data, pos);
    }
  }

  lemma {:induction false} OverrunsThere(
      data: seq<byte>, pos: nat, end: nat, xorOnly: bool, attrs: seq<Attribute>, rest: seq<byte>)
    requires pos <= |data| && OverrunsBehind(data, pos, end, xorOnly, attrs, rest)
    ensures Scan(data, pos, end, xorOnly).Overrun?
    decreases |attrs|
  {
    hide WantsMore, ScanOne;
    if attrs == [] {
      assert data[pos..] == rest;
      match ScanOne(data, pos, xorOnly)
      case Stop(_) => OverrunsHereIff(data, pos, end, xorOnly);
      case Skip(next) =>
        if next > |data| {
          OverrunsHereIff(data, pos, end, xorOnly);
        } else {
          WantsNoMore(data, pos, end, xorOnly, next);
        }
    } else {
      FirstIsSteppedOver(data, pos, xorOnly, attrs, rest);
      OverrunsThere(data, pos + |EncodeAttribute(attrs[0])|, end, xorOnly, attrs[1..], rest);
    }
  }

  lemma Regrouped(data: seq<byte>, pos: nat, x: seq<byte>, y: seq<byte>, z: seq<byte>)
    requires pos <= |data| && data[pos..] == x + y + z
    ensures pos + |x| <= |data| && data[pos + |x|..] == y + z
    ensures data == data[..pos] + x + (y + z) && |data[..pos] + x| == pos + |x|
  {
    assert data == data[..pos] + data[pos..];
    assert data[pos + |x|..] == data[pos..][|x|..];
  }

  lemma FirstIsSteppedOver(data: seq<byte>, pos: nat, xorOnly: bool, attrs: seq<Attribute>, rest: seq<byte>)
    requires pos <= |data| && attrs != [] && forall a :: a in attrs ==> WellFormed(a) && !Usable(a, xorOnly)
    requires data[pos..] == EncodeAttributes(attrs) + rest
    ensures var next := pos + |EncodeAttribute(attrs[0])|;
      && next <= |data| && ScanOne(data, pos, xorOnly) == Skip(next)
      && data[next..] == EncodeAttributes(attrs[1..]) + rest
  {
    hide ScanOne, EncodeAttribute, Usable;
    var encoded, after := EncodeAttribute(attrs[0]), EncodeAttributes(attrs[1..]);
    Regrouped(data, pos, encoded, after, rest);
    ScanOneReads(data, data[..pos], attrs[0], after + rest, xorOnly);
  }

  /** The whole attribute at `pos` that the scan steps over. */
  lemma SteppedOver(data: seq<byte>, pos: nat, xorOnly: bool, next: nat) returns (a: Attribute)
    requires pos <= |data| && ScanOne(data, pos, xorOnly) == Skip(next) && next <= |data|
    ensures WellFormed(a) && !Usable(a, xorOnly) && data[pos..] == EncodeAttribute(a) + data[next..]
  {
    hide Read16, Takes, AddressIn;
    var length := Read16(data[pos + 2..pos + 4]);
    a := Attribute(Read16(data[pos..pos + 2]), data[pos + 4..pos + 4 + length], data[pos + 4 + length..next]);
    if length >= 8 {
      assert a.value[1] == data[pos + 5];
    }
    WriteBack16(data[pos..pos + 2]);
    WriteBack16(data[pos + 2..pos + 4]);
    assert EncodeAttribute(a) == data[pos..next];
  }

  lemma OneMoreBefore(
      data: seq<byte>, pos: nat, end: nat, xorOnly: bool, a: Attribute, next: nat, attrs: seq<Attribute>,
      rest: seq<byte>)
    requires pos <= |data| && WellFormed(a) && !Usable(a, xorOnly)
    requires next <= |data| && data[pos..] == EncodeAttribute(a) + data[next..]
    requires OverrunsBehind(data, next, end, xorOnly, attrs, rest)
    ensures OverrunsBehind(data, pos, end, xorOnly, [a] + attrs, rest)
  {
    hide WantsMore, EncodeAttribute, Usable, WellFormed;
    assert ([a] + attrs)[1..] == attrs;
    assert EncodeAttributes([a] + attrs) == EncodeAttribute(a) + EncodeAttributes(attrs);
  }

  lemma {:induction false} WhereItOverruns(data: seq<byte>, pos: nat, end: nat, xorOnly: bool)
    returns (attrs: seq<Attribute>, rest: seq<byte>)
    requires pos <= |data| && Scan(data, pos, end, xorOnly).Overrun?
    ensures OverrunsBehind(data, pos, end, xorOnly, attrs, rest)
    decreases end - pos
  {
    hide WantsMore, ScanOne;
    attrs, rest := [], data[pos..];
    match ScanOne(data, pos, xorOnly)
    case Stop(_) => OverrunsHereIff(data, pos, end, xorOnly);
    case Skip(next) =>
      if next > |data| {
        OverrunsHereIff(data, pos, end, xorOnly);
      } else {
        var a := SteppedOver(data, pos, xorOnly, next);
        attrs, rest := WhereItOverruns(data, next, end, xorOnly);
        OneMoreBefore(data, pos, end, xorOnly, a, next, attrs, rest);
        attrs := [a] + attrs;
      }
  }

  /** The datagrams that a scan overruns are exactly those that, behind whole attributes without a usable address, end
    * too early for the next read. */
  lemma OverrunIff(data: seq<byte>, pos: nat, end: nat, xorOnly: bool)
    requires pos <= |data|
    ensures Scan(data, pos, end, xorOnly).Overrun?
       <==> exists attrs, rest :: OverrunsBehind(data, pos, end, xorOnly, attrs, rest)
  {
    if Scan(data, pos, end, xorOnly).Overrun? {
      var attrs, rest := WhereItOverruns(data, pos, end, xorOnly);
    }
    forall attrs, rest | OverrunsBehind(data, pos, end, xorOnly, attrs, rest)
      ensures Scan(data, pos, end, xorOnly).Overrun?
    {
      OverrunsThere(data, pos, end, xorOnly, attrs, rest);
    }
  }

  /** An input: the header's length is that of the datagram, and only the attribute says more than there is. */
  lemma AttributeBehindTheEnd(tid: seq<byte>)
    requires IsTid(tid)
    ensures var data := Header(BINDING_RESPONSE, 4, tid) + BE16(XOR_MAPPED_ADDRESS) + BE16(8);
      && HEADER + Read16(data[2..4]) == |data|
      && Parse(data, tid).Overrun? && Scan(data, HEADER, |data|, true).Overrun?
  {
    var rest := BE16(XOR_MAPPED_ADDRESS) + BE16(8);
    var data := Header(BINDING_RESPONSE, 4, tid) + rest;
    assert data == Header(BINDING_RESPONSE, 4, tid) + BE16(XOR_MAPPED_ADDRESS) + BE16(8);
    HeaderFields(BINDING_RESPONSE, 4, tid, rest);
    assert rest[..2] == BE16(XOR_MAPPED_ADDRESS) && rest[2..4] == BE16(8);
    OverrunsThere(data, HEADER, |data|, false, [], rest);
    OverrunsThere(data, HEADER, |data|, true, [], rest);
  }

  // ---------------------------------------------------------------- request and answer

  function Request(tid: seq<byte>): seq<byte>
    requires IsTid(tid)
  {
    Header(BINDING_REQUEST, 0, tid)
  }

  lemma AnswerFits(port: nat, addr: nat)
    requires port < TWO16 && addr < TWO32
    ensures FitsMessage([XorMapped(port, addr)]) && |EncodeAttributes([XorMapped(port, addr)])| == 12
  {
  }

  function Answer(tid: seq<byte>, port: nat, addr: nat): seq<byte>
    requires IsTid(tid) && port < TWO16 && addr < TWO32
  {
    AnswerFits(port, addr);
    Message(BINDING_RESPONSE, tid, [XorMapped(port, addr)])
  }

  /** A request is answered under its own transaction id, and the asker reads the address it was seen at. */
  lemma RequestAnswered(tid: seq<byte>, port: nat, addr: nat)
    requires IsTid(tid) && port < TWO16 && addr < TWO32
    ensures Classify(Request(tid)) == Datagram.Stun(Request(tid)) && Read16(Request(tid)[..2]) == BINDING_REQUEST
    ensures var answer := Answer(Request(tid)[8..20], port, addr);
      && Classify(answer) == Datagram.Stun(answer) && Read16(answer[..2]) == BINDING_RESPONSE
      && Parse(answer, tid) == Found(port, addr)
      && Scan(answer, HEADER, HEADER + Read16(answer[2..4]), true) == Found(port, addr)
  {
    HeaderFields(BINDING_REQUEST, 0, tid, []);
    assert Header(BINDING_REQUEST, 0, tid) + [] == Request(tid);
    AnswerFits(port, addr);
    var attrs := [XorMapped(port, addr)];
    var body := EncodeAttributes(attrs);
    HeaderFields(BINDING_RESPONSE, |body|, tid, body);
    assert [] + attrs + [] == attrs;
    AddressRecovered(tid, [], port, addr, []);
    ScanFindsFirst(Message(BINDING_RESPONSE, tid, attrs), Header(BINDING_RESPONSE, |body|, tid), attrs, true);
    AddressInMapped(port, addr);
  }

  /** The ICE agent accepts a well-formed answer exactly when it carries a masked IPv4 address. */
  lemma {:induction false} MaskedAddressDecides(attrs: seq<Attribute>)
    ensures FirstAddress(attrs, true).Found? <==> exists a :: a in attrs && Usable(a, true)
    ensures !FirstAddress(attrs, true).Overrun?
  {
    if attrs != [] {
      MaskedAddressDecides(attrs[1..]);
      assert attrs == [attrs[0]] + attrs[1..];
    }
  }

  // ---------------------------------------------------------------- the code's own form

  /** `memcpy` into a buffer. */
  method Copy(a: array<byte>, at: nat, bytes: seq<byte>)
    requires at + |bytes| <= a.Length
    modifies a
    ensures a[..] == old(a[..at]) + bytes + old(a[at + |bytes|..])
  {
    for i := 0 to |bytes|
      invariant a[..] == old(a[..at]) + bytes[..i] + old(a[at + i..])
    {
      a[at + i] := bytes[i];
    }
  }

  function AnswerBytes(tid: seq<byte>, sinPort: seq<byte>, sinAddr: seq<byte>): seq<byte>
    requires IsTid(tid) && |sinPort| == 2 && |sinAddr| == 4
  {
    Header(BINDING_RESPONSE, 12, tid) + BE16(XOR_MAPPED_ADDRESS) + BE16(8) + [0, IPV4]
    + BE16(Xor16(Read16(sinPort), COOKIE_HIGH)) + XorBytes(sinAddr, BE32(MAGIC_COOKIE))
  }

  lemma AnswerLayout(tid: seq<byte>, sinPort: seq<byte>, sinAddr: seq<byte>)
    requires IsTid(tid) && |sinPort| == 2 && |sinAddr| == 4
    ensures AnswerBytes(tid, sinPort, sinAddr) == Answer(tid, Read16(sinPort), Read32(sinAddr))
  {
    var port, addr := Read16(sinPort), Read32(sinAddr);
    WriteBack32(sinAddr);
    WriteBack32(XorBytes(sinAddr, BE32(MAGIC_COOKIE)));
    AnswerFits(port, addr);
    var a := XorMapped(port, addr);
    assert [a][1..] == [];
    assert EncodeAttributes([a]) == EncodeAttribute(a);
  }

  method FillHeader(a: array<byte>, kind: nat, length: nat, tid: seq<byte>)
    requires a.Length >= HEADER && kind < TWO16 && length < TWO16 && IsTid(tid)
    modifies a
    ensures a[..HEADER] == Header(kind, length, tid)
  {
    Copy(a, 0, Memory16(Swap16(kind)));
    Copy(a, 2, Memory16(Swap16(length)));
    Copy(a, 4, Memory32(Swap32(MAGIC_COOKIE)));
    Copy(a, 8, tid);
    Swap16Parts(kind);
    Swap16Parts(length);
    Swap32Parts(MAGIC_COOKIE);
  }

  method BuildBindingRequest(tid: seq<byte>) returns (result: array<byte>)
    requires IsTid(tid)
    ensures fresh(result) && result[..] == Request(tid)
  {
    result := new byte[HEADER];
    FillHeader(result, BINDING_REQUEST, 0, tid);
  }

  method FillXorMapped(a: array<byte>, sinPort: seq<byte>, sinAddr: seq<byte>)
    requires a.Length == HEADER + 12 && |sinPort| == 2 && |sinAddr| == 4
    modifies a
    ensures a[..] == old(a[..HEADER]) + BE16(XOR_MAPPED_ADDRESS) + BE16(8) + [0, IPV4]
                   + BE16(Xor16(Read16(sinPort), COOKIE_HIGH)) + XorBytes(sinAddr, BE32(MAGIC_COOKIE))
  {
    var xorPort := Xor16(Read16(sinPort), COOKIE_HIGH);
    Copy(a, 20, Memory16(Swap16(XOR_MAPPED_ADDRESS)));
    Copy(a, 22, Memory16(Swap16(8)));
    Copy(a, 24, [0, IPV4]);
    Copy(a, 26, Memory16(Swap16(xorPort)));
    Copy(a, 28, XorBytes(sinAddr, Memory32(Swap32(MAGIC_COOKIE))));
    Swap16Parts(XOR_MAPPED_ADDRESS);
    Swap16Parts(8);
    Swap16Parts(xorPort);
    Swap32Parts(MAGIC_COOKIE);
  }

  /** The answer as it is put together; port and address of the asker are the bytes of its socket address. */
  method SendStunResponse(tid: seq<byte>, sinPort: seq<byte>, sinAddr: seq<byte>) returns (response: array<byte>)
    requires IsTid(tid) && |sinPort| == 2 && |sinAddr| == 4
    ensures fresh(response) && response[..] == Answer(tid, Read16(sinPort), Read32(sinAddr))
  {
    response := new byte[HEADER + 12];
    FillHeader(response, BINDING_RESPONSE, 12, tid);
    FillXorMapped(response, sinPort, sinAddr);
    AnswerLayout(tid, sinPort, sinAddr);
  }

  /** The bytes that the parser leaves in the port and address fields of the socket address. */
  datatype ParseResult = Address(sinPort: seq<byte>, sinAddr: seq<byte>) | Nothing | PastTheEnd

  function InMemory(r: Outcome): ParseResult {
    match r
    case Found(port, addr) => if port < TWO16 && addr < TWO32 then Address(BE16(port), BE32(addr)) else Nothing
    case NotFound => Nothing
    case Overrun => PastTheEnd
  }

  method ParseBindingResponse(data: seq<byte>, tid: seq<byte>) returns (r: ParseResult)
    requires IsTid(tid)
    ensures r == InMemory(Parse(data, tid))
  {
    hide Padded, AddressIn, Read16, Read32;
    if |data| < HEADER {
      return Nothing;
    }
    if Read16(data[..2]) != BINDING_RESPONSE || Read32(data[4..8]) != MAGIC_COOKIE || data[8..20] != tid {
      return Nothing;
    }
    var ptr, end := HEADER, HEADER + Read16(data[2..4]);
    while ptr + 4 <= end
      invariant Scan(data, ptr, end, false) == Parse(data, tid)
      decreases end - ptr
    {
      if ptr + 4 > |data| {
        return PastTheEnd;
      }
      var kind, length := Read16(data[ptr..ptr + 2]), Read16(data[ptr + 2..ptr + 4]);
      if (kind == XOR_MAPPED_ADDRESS || kind == MAPPED_ADDRESS) && length >= 8 {
        if ptr + 6 > |data| {
          return PastTheEnd;
        }
        if data[ptr + 5] != IPV4 {
          ptr := ptr + 4 + Padded(length);
          continue;
        }
        if ptr + 12 > |data| {
          return PastTheEnd;
        }
        r := ReadAddress(kind, data[ptr + 4..ptr + 12]);
        return;
      }
      ptr := ptr + 4 + Padded(length);
    }
    return Nothing;
  }

  method ReadAddress(kind: nat, value: seq<byte>) returns (r: ParseResult)
    requires |value| == 8 && (kind == XOR_MAPPED_ADDRESS || kind == MAPPED_ADDRESS)
    ensures r == InMemory(AddressIn(kind, value))
  {
    var port, addr := value[2..4], value[4..8];
    WriteBack16(port);
    WriteBack32(addr);
    if kind == XOR_MAPPED_ADDRESS {
      WriteBack16(XorBytes(port, BE16(COOKIE_HIGH)));
      WriteBack32(XorBytes(addr, BE32(MAGIC_COOKIE)));
      return Address(XorBytes(port, BE16(COOKIE_HIGH)), XorBytes(addr, BE32(MAGIC_COOKIE)));
    }
    return Address(port, addr);
  }

  /** The loop of the ICE agent, which only asks whether a masked IPv4 address is there. */
  method FindsMaskedAddress(data: seq<byte>) returns (found: bool, overrun: bool)
    requires |data| >= HEADER
    ensures var r := Scan(data, HEADER, HEADER + Read16(data[2..4]), true); found == r.Found? && overrun == r.Overrun?
  {
    var ptr, end := HEADER, HEADER + Read16(data[2..4]);
    while ptr + 4 <= end
      invariant Scan(data, ptr, end, true) == Scan(data, HEADER, end, true)
      decreases end - ptr
    {
      if ptr + 4 > |data| {
        return false, true;
      }
      var kind, length := Read16(data[ptr..ptr + 2]), Read16(data[ptr + 2..ptr + 4]);
      if kind == XOR_MAPPED_ADDRESS && length >= 8 {
        if ptr + 6 > |data| {
          return false, true;
        }
        if data[ptr + 5] == IPV4 {
          return ptr + 12 <= |data|, ptr + 12 > |data|;
        }
      }
      ptr := ptr + 4 + Padded(length);
    }
    return false, false;
  }
}
