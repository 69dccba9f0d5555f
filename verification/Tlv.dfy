/** BFCP attributes on the wire (section 5.2 of RFC 8855): the printer, the two parsers of the
    source, and the theorems that tie them together. */
module Tlv {
  import opened Wrappers
  import opened Octets

  /** `rawTLV` marks an attribute whose value already is a complete encoded attribute. */
  datatype Attribute = Attribute(typ: u8, length: u8, value: seq<u8>, rawTLV: bool)

  datatype ScanError = IncompleteHeader | BadLength | OutOfBounds

  /** Attributes the wire can carry: 7-bit type, length octet counting the two header octets. */
  predicate Fits(a: Attribute) {
    !a.rawTLV && a.typ < 128 && a.length == |a.value| && |a.value| <= 253
  }

  ghost predicate AllFit(attrs: seq<Attribute>) {
    forall i :: 0 <= i < |attrs| ==> Fits(attrs[i])
  }

  function Plain(typ: u8, value: seq<u8>): Attribute {
    Attribute(typ, Low8(|value|), value, false)
  }

  // ----- printing ---------------------------------------------------------

  /** One encoded attribute: type and M bit, length octet, value, zero padding. */
  function Wire(typ: u8, mandatory: bool, value: seq<u8>): (w: seq<u8>)
    ensures |w| == Padded(2 + |value|)
  {
    [Shl1(typ) + (if mandatory then 1 else 0), Low8(2 + |value|)]
    + value + Zeros(Padding(2 + |value|))
  }

  /** Space the encoder reserves for an attribute. */
  function Slot(a: Attribute): nat {
    if a.rawTLV then |a.value| else Padded(2 + a.length)
  }

  function Size(attrs: seq<Attribute>): nat {
    if attrs == [] then 0 else Slot(attrs[0]) + Size(attrs[1..])
  }

  lemma SizeCons(a: Attribute, attrs: seq<Attribute>)
    ensures Size([a] + attrs) == Slot(a) + Size(attrs)
  {
    assert ([a] + attrs)[1..] == attrs;
  }

  lemma PayloadCons(a: Attribute, attrs: seq<Attribute>)
    ensures Payload([a] + attrs) == Printed(a) + Payload(attrs)
  {
    assert ([a] + attrs)[1..] == attrs;
  }

  function Printed(a: Attribute): seq<u8> {
    if a.rawTLV then a.value else Wire(a.typ, true, a.value)
  }

  function Payload(attrs: seq<Attribute>): seq<u8> {
    if attrs == [] then [] else Printed(attrs[0]) + Payload(attrs[1..])
  }

  /** The encoder's writes for one attribute. */
  function Filled(buf: seq<u8>, off: nat, a: Attribute): (r: seq<u8>)
    requires off + Slot(a) <= |buf|
    ensures |r| == |buf|
  {
    if a.rawTLV then Put(buf, off, a.value)
    else Put(Put(buf, off, [Shl1(a.typ) + 1, Low8(2 + a.length)]), off + 2, a.value)
  }

  /** The encoder's writes, in order, on a zeroed buffer. An attribute whose Length field disagrees
      with its value spills into later slots, as in the source. */
  function Overlay(buf: seq<u8>, off: nat, attrs: seq<Attribute>): seq<u8>
    requires off + Size(attrs) == |buf|
    decreases attrs
  {
    if attrs == [] then buf
    else Overlay(Filled(buf, off, attrs[0]), off + Slot(attrs[0]), attrs[1..])
  }

  predicate Tidy(a: Attribute) {
    a.rawTLV || a.length == |a.value|
  }

  lemma SlotFilled(pre: seq<u8>, n: nat, a: Attribute)
    requires Tidy(a) && Slot(a) <= n
    ensures |Printed(a)| == Slot(a)
    ensures Filled(pre + Zeros(n), |pre|, a) == pre + Printed(a) + Zeros(n - Slot(a))
  {
    if a.rawTLV {
      PutOnZeros(pre, n, a.value);
    } else {
      var header, k := [Shl1(a.typ) + 1, Low8(2 + a.length)], 2 + a.length;
      PutOnZeros(pre, n, header);
      PutOnZeros(pre + header, n - 2, a.value);
      var pad, left := Zeros(Padding(k)), Zeros(n - Slot(a));
      SplitZeros(Padding(k), n - Slot(a));
      Regroup(pre, header, a.value, pad, left);
    }
  }

  lemma Regroup(a: seq<u8>, b: seq<u8>, c: seq<u8>, d: seq<u8>, e: seq<u8>)
    ensures a + b + c + (d + e) == a + (b + c + d) + e
  {
  }

  lemma {:induction false} OverlayIsPayload(pre: seq<u8>, attrs: seq<Attribute>)
    requires forall i :: 0 <= i < |attrs| ==> Tidy(attrs[i])
    ensures Overlay(pre + Zeros(Size(attrs)), |pre|, attrs) == pre + Payload(attrs)
    decreases attrs
  {
    hide Filled, Printed, Slot;
    if attrs != [] {
      var a, rest := attrs[0], attrs[1..];
      SlotFilled(pre, Size(attrs), a);
      OverlayIsPayload(pre + Printed(a), rest);
      Concat3(pre, Printed(a), Payload(rest));
    }
  }

  // ----- parsing ----------------------------------------------------------

  predicate Headed(p: seq<u8>) {
    |p| >= 2 && 2 <= p[1] <= |p|
  }

  function Head(p: seq<u8>): Attribute
    requires Headed(p)
  {
    Attribute(Shr1(p[0]), p[1] - 2, p[2..p[1]], false)
  }

  /** What is left after the first attribute and its padding. */
  function Rest(p: seq<u8>): (q: seq<u8>)
    requires Headed(p)
    ensures |q| < |p|
  {
    Drop(p, Padded(p[1]))
  }

  function Prepend(front: seq<Attribute>, r: Result<seq<Attribute>, ScanError>): Result<seq<Attribute>, ScanError> {
    match r
    case Failure(e) => Failure(e)
    case Success(attrs) => Success(front + attrs)
  }

  lemma PrependTwice(a: seq<Attribute>, b: seq<Attribute>, r: Result<seq<Attribute>, ScanError>)
    ensures Prepend(a, Prepend(b, r)) == Prepend(a + b, r)
  {
    if r.Success? {
      assert a + (b + r.value) == a + b + r.value;
    }
  }

  lemma RestAligned(p: seq<u8>)
    requires Headed(p) && Aligned(|p|)
    ensures |Rest(p)| == |p| - Padded(p[1]) && Aligned(|Rest(p)|)
  {
    PaddedLeast(p[1], |p|);
  }

  /** How the attribute loop of `Decode` ends where no attribute starts. */
  function Stop(p: seq<u8>): Result<seq<Attribute>, ScanError>
    requires !Headed(p)
  {
    if |p| == 0 then Success([])
    else if |p| < 2 then Failure(IncompleteHeader)
    else if p[1] < 2 then Failure(BadLength)
    else Failure(OutOfBounds)
  }

  /** The attribute loop of `Decode`. */
  function Scan(p: seq<u8>): Result<seq<Attribute>, ScanError>
    decreases |p|
  {
    if Headed(p) then Prepend([Head(p)], Scan(Rest(p))) else Stop(p)
  }

  /** `parseTLVs`: the attributes read before the end or the first bad length, and whether all were good. */
  function Tlvs(p: seq<u8>): (seq<Attribute>, bool)
    decreases |p|
  {
    if |p| < 2 then ([], true)
    else if p[1] < 2 || p[1] > |p| then ([], false)
    else Glue([Head(p)], Tlvs(Rest(p)))
  }

  function Glue(front: seq<Attribute>, r: (seq<Attribute>, bool)): (seq<Attribute>, bool) {
    (front + r.0, r.1)
  }

  /** The loop of `parseTLVs`, standing at `offset` with `attrs` collected. */
  function TlvsFrom(data: seq<u8>, offset: nat, attrs: seq<Attribute>): (seq<Attribute>, bool)
    decreases |data| - offset
  {
    if offset + 2 > |data| then (attrs, true)
    else
      var length := data[offset + 1];
      if length < 2 || offset + length > |data| then (attrs, false)
      else TlvsFrom(data, offset + Padded(length),
                    attrs + [Attribute(Shr1(data[offset]), length - 2, data[offset + 2..offset + length], false)])
  }

  method ParseTLVs(data: seq<u8>) returns (attrs: seq<Attribute>, ok: bool)
    ensures (attrs, ok) == Tlvs(data)
  {
    attrs := [];
    var offset: nat := 0;
    while offset + 2 <= |data|
      invariant TlvsFrom(data, offset, attrs) == TlvsFrom(data, 0, [])
      decreases |data| - offset
    {
      var length := data[offset + 1];
      if length < 2 || offset + length > |data| {
        TlvsFromStart(data);
        return attrs, false;
      }
      var value := data[offset + 2..offset + length];
      attrs := attrs + [Attribute(Shr1(data[offset]), length - 2, value, false)];
      var padding := Skip(length);
      offset := offset + length + padding;
    }
    TlvsFromStart(data);
    ok := true;
  }

  predicate HeadedAt(data: seq<u8>, offset: nat) {
    offset + 2 <= |data| && 2 <= data[offset + 1] && offset + data[offset + 1] <= |data|
  }

  lemma DropStep(data: seq<u8>, offset: nat)
    ensures HeadedAt(data, offset) <==> Headed(Drop(data, offset))
    ensures HeadedAt(data, offset) ==>
              && Head(Drop(data, offset))
              == Attribute(Shr1(data[offset]), data[offset + 1] - 2, data[offset + 2..offset + data[offset + 1]], false)
    ensures HeadedAt(data, offset) ==> Rest(Drop(data, offset)) == Drop(data, offset + Padded(data[offset + 1]))
  {
    if offset + 2 <= |data| {
      DropIs(data, offset);
      var p, length := data[offset..], data[offset + 1];
      assert p[1] == length;
      DropTwice(data, offset, Padded(length));
      if HeadedAt(data, offset) {
        assert p[2..length] == data[offset + 2..offset + length];
      }
    }
  }

  lemma {:induction false} TlvsFromDrop(data: seq<u8>, offset: nat, attrs: seq<Attribute>)
    ensures TlvsFrom(data, offset, attrs) == Glue(attrs, Tlvs(Drop(data, offset)))
    decreases |data| - offset
  {
    DropStep(data, offset);
    if HeadedAt(data, offset) {
      var p := Drop(data, offset);
      TlvsFromDrop(data, offset + Padded(data[offset + 1]), attrs + [Head(p)]);
      GlueTwice(attrs, [Head(p)], Tlvs(Rest(p)));
    } else {
      assert attrs + [] == attrs;
    }
  }

  /** The loop of `Decode`, standing at `offset` of `body` with `attrs` collected. */
  function ScanFrom(body: seq<u8>, offset: nat, attrs: seq<Attribute>): Result<seq<Attribute>, ScanError>
    decreases |body| - offset
  {
    if HeadedAt(body, offset) then
      var length := body[offset + 1];
      ScanFrom(body, offset + Padded(length),
               attrs + [Attribute(Shr1(body[offset]), length - 2, body[offset + 2..offset + length], false)])
    else Prepend(attrs, if offset <= |body| then Stop(body[offset..]) else Success([]))
  }

  lemma {:induction false} ScanFromDrop(body: seq<u8>, offset: nat, attrs: seq<Attribute>)
    ensures ScanFrom(body, offset, attrs) == Prepend(attrs, Scan(Drop(body, offset)))
    decreases |body| - offset
  {
    DropStep(body, offset);
    if HeadedAt(body, offset) {
      var p := Drop(body, offset);
      ScanFromDrop(body, offset + Padded(body[offset + 1]), attrs + [Head(p)]);
      PrependTwice(attrs, [Head(p)], Scan(Rest(p)));
    } else if offset <= |body| {
      DropIs(body, offset);
    }
  }

  lemma PrependNothing(attrs: seq<Attribute>)
    ensures Prepend(attrs, Success([])) == Success(attrs)
  {
    assert attrs + [] == attrs;
  }

  lemma GlueTwice(a: seq<Attribute>, b: seq<Attribute>, r: (seq<Attribute>, bool))
    ensures Glue(a, Glue(b, r)) == Glue(a + b, r)
  {
    assert a + (b + r.0) == a + b + r.0;
  }

  lemma TlvsFromStart(data: seq<u8>)
    ensures TlvsFrom(data, 0, []) == Tlvs(data)
  {
    TlvsFromDrop(data, 0, []);
    assert [] + Tlvs(data).0 == Tlvs(data).0;
  }

  // ----- what the parsers do to printed attributes ------------------------

  lemma WireIsHead(typ: u8, mandatory: bool, value: seq<u8>, q: seq<u8>)
    requires typ < 128 && |value| <= 253
    ensures Headed(Wire(typ, mandatory, value) + q)
    ensures Head(Wire(typ, mandatory, value) + q) == Plain(typ, value)
    ensures Rest(Wire(typ, mandatory, value) + q) == q
  {
    var p := Wire(typ, mandatory, value) + q;
    DropIs(p, Padded(2 + |value|));
    assert p[2..2 + |value|] == value;
  }

  lemma HeadAppend(p: seq<u8>, q: seq<u8>)
    requires Headed(p) && Aligned(|p|)
    ensures Headed(p + q) && Head(p + q) == Head(p)
    ensures Rest(p + q) == Rest(p) + q && Aligned(|Rest(p)|)
  {
    RestAligned(p);
    DropIs(p, Padded(p[1]));
    DropIs(p + q, Padded(p[1]));
    assert (p + q)[2..p[1]] == p[2..p[1]];
  }

  lemma ScanWire(typ: u8, mandatory: bool, value: seq<u8>)
    requires typ < 128 && |value| <= 253
    ensures Scan(Wire(typ, mandatory, value)) == Success([Plain(typ, value)])
  {
    var w := Wire(typ, mandatory, value);
    WireIsHead(typ, mandatory, value, []);
    assert w + [] == w;
    assert [Plain(typ, value)] + [] == [Plain(typ, value)];
  }

  /** Parsing distributes over concatenation at an aligned boundary. */
  lemma {:induction false} ScanAppend(p: seq<u8>, q: seq<u8>)
    requires Aligned(|p|) && Scan(p).Success?
    ensures Scan(p + q) == Prepend(Scan(p).value, Scan(q))
    decreases |p|
  {
    if p == [] {
      assert p + q == q;
      assert Scan(q).Success? ==> [] + Scan(q).value == Scan(q).value;
    } else {
      HeadAppend(p, q);
      ScanAppend(Rest(p), q);
      PrependTwice([Head(p)], Scan(Rest(p)).value, Scan(q));
    }
  }

  /** The attributes the peer sees: pre-encoded ones are read apart, the others arrive as they are. */
  ghost function Expand(attrs: seq<Attribute>): seq<Attribute>
    requires AllCarried(attrs)
  {
    if attrs == [] then []
    else Expanded(attrs[0]) + Expand(attrs[1..])
  }

  function Expanded(a: Attribute): seq<Attribute>
    requires Carried(a)
  {
    if a.rawTLV then Scan(a.value).value else [a]
  }

  ghost predicate AllCarried(attrs: seq<Attribute>) {
    forall i :: 0 <= i < |attrs| ==> Carried(attrs[i])
  }

  predicate Carried(a: Attribute) {
    Fits(a) || (a.rawTLV && Aligned(|a.value|) && Scan(a.value).Success?)
  }

  lemma ScanPrinted(a: Attribute, q: seq<u8>)
    requires Carried(a)
    ensures Scan(Printed(a) + q) == Prepend(Expanded(a), Scan(q))
  {
    if a.rawTLV {
      ScanAppend(a.value, q);
    } else {
      WireIsHead(a.typ, true, a.value, q);
    }
  }

  lemma {:induction false} ScanPayload(attrs: seq<Attribute>)
    requires AllCarried(attrs)
    ensures Scan(Payload(attrs)) == Success(Expand(attrs))
  {
    if attrs != [] {
      ScanPrinted(attrs[0], Payload(attrs[1..]));
      ScanPayload(attrs[1..]);
    }
  }

  lemma SlotOf(a: Attribute)
    requires Carried(a)
    ensures |Printed(a)| == Slot(a) && Aligned(Slot(a))
  {
    PaddedAligned(2 + a.length);
  }

  lemma {:induction false} PayloadSize(attrs: seq<Attribute>)
    requires AllCarried(attrs)
    ensures |Payload(attrs)| == Size(attrs) && Aligned(Size(attrs))
  {
    if attrs != [] {
      PayloadSize(attrs[1..]);
      SlotOf(attrs[0]);
      AlignedSum(Slot(attrs[0]), Size(attrs[1..]));
    }
  }

  lemma {:induction false} ExpandPlain(attrs: seq<Attribute>)
    requires AllFit(attrs)
    ensures Expand(attrs) == attrs
  {
    if attrs != [] {
      ExpandPlain(attrs[1..]);
    }
  }

  /** An attribute as handed to `buildSimpleAttr`. */
  datatype Spec = Spec(typ: u8, mandatory: bool, value: seq<u8>)

  function Children(specs: seq<Spec>): seq<u8> {
    if specs == [] then [] else Wire(specs[0].typ, specs[0].mandatory, specs[0].value) + Children(specs[1..])
  }

  function Read(specs: seq<Spec>): (attrs: seq<Attribute>)
    ensures |attrs| == |specs|
    ensures forall i :: 0 <= i < |specs| ==> attrs[i] == Plain(specs[i].typ, specs[i].value)
  {
    if specs == [] then [] else [Plain(specs[0].typ, specs[0].value)] + Read(specs[1..])
  }

  /** `parseTLVs` undoes any run of `buildSimpleAttr`, whatever the M bits. */
  lemma {:induction false} TlvsOfChildren(specs: seq<Spec>)
    requires forall i :: 0 <= i < |specs| ==> specs[i].typ < 128 && |specs[i].value| <= 253
    ensures Tlvs(Children(specs)) == (Read(specs), true)
  {
    if specs != [] {
      WireIsHead(specs[0].typ, specs[0].mandatory, specs[0].value, Children(specs[1..]));
      TlvsOfChildren(specs[1..]);
    }
  }

  // ----- what parsing yields ----------------------------------------------

  /** Every parsed attribute fits the wire again. */
  lemma {:induction false} ScanFits(p: seq<u8>)
    requires Scan(p).Success?
    ensures AllFit(Scan(p).value)
    decreases |p|
  {
    if p != [] {
      ScanFits(Rest(p));
    }
  }

  lemma HeadFills(p: seq<u8>, attrs: seq<Attribute>)
    requires Headed(p) && Aligned(|p|) && Size(attrs) == |Rest(p)|
    ensures Size([Head(p)] + attrs) == |p|
  {
    RestAligned(p);
    SizeCons(Head(p), attrs);
  }

  /** The attributes parsed from an aligned payload fill it exactly. */
  lemma {:induction false} ScanFills(p: seq<u8>)
    requires Aligned(|p|) && Scan(p).Success?
    ensures Size(Scan(p).value) == |p|
    decreases |p|
  {
    if p != [] {
      RestAligned(p);
      ScanFills(Rest(p));
      HeadFills(p, Scan(Rest(p)).value);
    }
  }

  /** `q` is `p` with every M bit set and every padding octet cleared, octet for octet. */
  ghost predicate CanonicalOf(p: seq<u8>, q: seq<u8>)
    decreases |p|
  {
    && |q| == |p|
    && (p != [] ==>
          && Headed(p)
          && q[0] == Shl1(Shr1(p[0])) + 1
          && q[1..p[1]] == p[1..p[1]]
          && (forall i :: p[1] <= i < |p| - |Rest(p)| ==> q[i] == 0)
          && CanonicalOf(Rest(p), q[|p| - |Rest(p)|..]))
  }

  lemma {:induction false} PayloadCanonical(p: seq<u8>)
    requires Aligned(|p|) && Scan(p).Success?
    ensures CanonicalOf(p, Payload(Scan(p).value))
    decreases |p|
  {
    if p != [] {
      RestAligned(p);
      PayloadCanonical(Rest(p));
      var head, rest, w := Head(p), Rest(p), Wire(Head(p).typ, true, Head(p).value);
      PayloadCons(head, Scan(rest).value);
      assert w[1..p[1]] == p[1..p[1]] by {
        assert Low8(p[1]) == p[1];
      }
      assert (w + Payload(Scan(rest).value))[|w|..] == Payload(Scan(rest).value);
    }
  }

  /** The two parsers disagree exactly when one octet is left over after the last attribute: `Decode`
      reports an incomplete header, `parseTLVs` ignores it. */
  lemma {:induction false} ScanAgainstTlvs(p: seq<u8>)
    ensures var (attrs, ok) := Tlvs(p);
            && (!ok <==> Scan(p) in {Failure(BadLength), Failure(OutOfBounds)})
            && (ok ==> Scan(p) == if Size(attrs) == |p| - 1 then Failure(IncompleteHeader) else Success(attrs))
    decreases |p|
  {
    if Headed(p) {
      ScanAgainstTlvs(Rest(p));
      SizeCons(Head(p), Tlvs(Rest(p)).0);
    }
  }

  /** A single octet is such an input. */
  lemma LeftOverOctet(x: u8)
    ensures Scan([x]) == Failure(IncompleteHeader) && Tlvs([x]) == ([], true)
  {
  }

  lemma HeadAligned(p: seq<u8>, attrs: seq<Attribute>)
    requires Headed(p) && Aligned(Size(attrs))
    ensures Aligned(Size([Head(p)] + attrs))
  {
    SizeCons(Head(p), attrs);
    PaddedAligned(p[1]);
    AlignedSum(Padded(p[1]), Size(attrs));
  }

  lemma {:induction false} TlvsAligned(p: seq<u8>)
    ensures Aligned(Size(Tlvs(p).0))
    decreases |p|
  {
    if Headed(p) {
      TlvsAligned(Rest(p));
      HeadAligned(p, Tlvs(Rest(p)).0);
    }
  }

  /** On word-counted payloads the parsers agree, and a split attribute header cannot occur. */
  lemma ParsersAgree(p: seq<u8>)
    requires |p| == 0 || !Aligned(|p| - 1)
    ensures Scan(p) != Failure(IncompleteHeader)
    ensures Scan(p).Success? <==> Tlvs(p).1
    ensures Scan(p).Success? ==> Scan(p).value == Tlvs(p).0
  {
    var size := Size(Tlvs(p).0);
    TlvsAligned(p);
    assert size != |p| - 1;
    ScanAgainstTlvs(p);
  }
}
