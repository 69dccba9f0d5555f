/** BFCP messages: the common header (section 5.1 of RFC 8855), `Encode` and `Decode`. */
module Messages {
  import opened Wrappers
  import opened Octets
  import opened Tlv

  const COMMON_HEADER_LENGTH: nat := 12

  const VERSION_RFC4582: u8 := 1
  const VERSION_RFC8855: u8 := 2

  const FLOOR_REQUEST: u8 := 1
  const FLOOR_RELEASE: u8 := 2
  const FLOOR_REQUEST_STATUS: u8 := 4
  const FLOOR_QUERY: u8 := 7
  const FLOOR_STATUS: u8 := 8
  const HELLO: u8 := 11
  const HELLO_ACK: u8 := 12
  const ERROR: u8 := 13
  const FLOOR_REQUEST_STATUS_ACK: u8 := 14
  const FLOOR_STATUS_ACK: u8 := 15
  const GOODBYE: u8 := 16
  const GOODBYE_ACK: u8 := 17

  const FLOOR_ID: u8 := 2
  const FLOOR_REQUEST_ID: u8 := 3
  const PRIORITY: u8 := 4
  const REQUEST_STATUS: u8 := 5
  const ERROR_CODE: u8 := 6
  const ERROR_INFO: u8 := 7
  const BENEFICIARY_INFO: u8 := 14
  const FLOOR_REQUEST_INFO: u8 := 15
  const REQUESTED_BY_INFO: u8 := 16
  const FLOOR_REQUEST_STATUS_INFO: u8 := 17
  const OVERALL_REQUEST_STATUS: u8 := 18

  /** The value of a message. */
  datatype Msg = Msg(version: u8, reserved: u8, primitive: u8, payloadLength: u16, conferenceID: u32,
                     transactionID: u16, userID: u16, attributes: seq<Attribute>)

  datatype DecodeError = TooShort | BadVersion | PayloadTooShort | BadAttribute(scan: ScanError)

  function NewMsg(primitive: u8, conferenceID: u32, transactionID: u16, userID: u16): Msg {
    Msg(VERSION_RFC4582, 0, primitive, 0, conferenceID, transactionID, userID, [])
  }

  // ----- the common header ------------------------------------------------

  /** Three bits of version, five of Reserved. */
  function FirstOctet(version: u8, reserved: u8): u8 {
    Low(version, 8) * 32 + Low(reserved, 32)
  }

  lemma FirstOctetOf(version: u8, reserved: u8)
    ensures FirstOctet(version, reserved) == version % 8 * 32 + reserved % 32
  {
    LowMod(version, 8);
    LowMod(reserved, 32);
  }

  ghost function Header(m: Msg): (h: seq<u8>)
    ensures |h| == COMMON_HEADER_LENGTH
  {
    [FirstOctet(m.version, m.reserved), m.primitive]
    + PutU16(m.payloadLength) + PutU32(m.conferenceID) + PutU16(m.transactionID) + PutU16(m.userID)
  }

  function Fields(data: seq<u8>): Msg
    requires |data| >= COMMON_HEADER_LENGTH
  {
    Msg(Shr5(data[0]), data[0] - 32 * Shr5(data[0]) as int, data[1], GetU16(data[2..4]), GetU32(data[4..8]),
        GetU16(data[8..10]), GetU16(data[10..12]), [])
  }

  lemma HeaderParts(m: Msg, q: seq<u8>)
    ensures var data := Header(m) + q;
            && data[0] == FirstOctet(m.version, m.reserved) && data[1] == m.primitive
            && data[2..4] == PutU16(m.payloadLength) && data[4..8] == PutU32(m.conferenceID)
            && data[8..10] == PutU16(m.transactionID) && data[10..12] == PutU16(m.userID)
            && data[12..] == q
  {
  }

  lemma FieldsOfHeader(m: Msg, q: seq<u8>)
    ensures Fields(Header(m) + q) == m.(version := Low(m.version, 8), reserved := Low(m.reserved, 32), attributes := [])
  {
    HeaderParts(m, q);
  }

  lemma HeaderIgnoresAttributes(m: Msg, attrs: seq<Attribute>)
    ensures Header(m.(attributes := attrs)) == Header(m)
  {
  }

  lemma HeaderOfFields(data: seq<u8>)
    requires |data| >= COMMON_HEADER_LENGTH
    ensures Header(Fields(data)) == data[..12]
  {
    PutGet16(data[2..4]);
    PutGet32(data[4..8]);
    PutGet16(data[8..10]);
    PutGet16(data[10..12]);
    assert data[..12] == [data[0], data[1]] + data[2..4] + data[4..8] + data[8..10] + data[10..12];
  }

  /** The R flag of the common header, bit 4 of Reserved. */
  predicate Flag(reserved: u8) {
    Low(reserved, 32) >= 16
  }

  function WithFlag(reserved: u8, response: bool): (r: u8)
    ensures Flag(r) == response
    ensures r == reserved || r == reserved + 16 || r == reserved - 16
  {
    FlagFlips(reserved);
    if Flag(reserved) == response then reserved else if response then reserved + 16 else reserved - 16
  }

  lemma FlagFlips(reserved: u8)
    ensures Flag(reserved) ==> reserved >= 16 && !Flag(reserved - 16)
    ensures !Flag(reserved) ==> reserved < 240 && Flag(reserved + 16)
  {
    var q, l := reserved / 32, reserved % 32;
    LowIs(reserved, 32, q, l);
    if l >= 16 {
      LowIs(reserved - 16, 32, q, l - 16);
    } else {
      LowIs(reserved + 16, 32, q, l + 16);
    }
  }

  // ----- Encode and Decode on values --------------------------------------

  function PayloadWords(attrs: seq<Attribute>): u16 {
    Low(Words(Size(attrs)), 0x1_0000)
  }

  /** What `Encode` returns: nothing when the attributes do not fill whole words. */
  ghost function Encoding(m: Msg): Option<seq<u8>> {
    if !Aligned(Size(m.attributes)) then None
    else
      var header := Header(m.(payloadLength := PayloadWords(m.attributes)));
      Some(Overlay(header + Zeros(Size(m.attributes)), COMMON_HEADER_LENGTH, m.attributes))
  }

  /** What `Decode` returns. */
  function Decoding(data: seq<u8>): Result<Msg, DecodeError> {
    if |data| < COMMON_HEADER_LENGTH then Failure(TooShort)
    else
      var m := Fields(data);
      if m.version != VERSION_RFC4582 && m.version != VERSION_RFC8855 then Failure(BadVersion)
      else if |data| < 12 + 4 * m.payloadLength as int then Failure(PayloadTooShort)
      else
        match Scan(data[12..12 + 4 * m.payloadLength as int])
        case Failure(e) => Failure(BadAttribute(e))
        case Success(attrs) => Success(m.(attributes := attrs))
  }

  // ----- the layout on the wire -------------------------------------------

  lemma {:induction false} PutKeeps(buf: seq<u8>, off: nat, src: seq<u8>, n: nat)
    requires n <= off && n <= |buf|
    ensures Put(buf, off, src)[..n] == buf[..n]
    decreases src
  {
    if src != [] && off < |buf| {
      PutKeeps(buf[off := src[0]], off + 1, src[1..], n);
    }
  }

  lemma {:induction false} OverlayKeeps(buf: seq<u8>, off: nat, attrs: seq<Attribute>, n: nat)
    requires off + Size(attrs) == |buf| && n <= off
    ensures |Overlay(buf, off, attrs)| == |buf| && Overlay(buf, off, attrs)[..n] == buf[..n]
    decreases attrs
  {
    if attrs != [] {
      var a := attrs[0];
      if a.rawTLV {
        PutKeeps(buf, off, a.value, n);
      } else {
        var header := [Shl1(a.typ) + 1, Low8(2 + a.length)];
        PutKeeps(buf, off, header, n);
        PutKeeps(Put(buf, off, header), off + 2, a.value, n);
      }
      OverlayKeeps(Filled(buf, off, a), off + Slot(a), attrs[1..], n);
    }
  }

  /** The common header of section 5.1 of RFC 8855, octet by octet, in front of the attributes. */
  lemma WireLayout(m: Msg)
    requires Encoding(m).Some?
    ensures var e, words := Encoding(m).value, PayloadWords(m.attributes);
            && |e| == 12 + Size(m.attributes)
            && e[0] == m.version % 8 * 32 + m.reserved % 32 && e[1] == m.primitive
            && e[2] == words / 0x100 && e[3] == words % 0x100
            && e[4] == m.conferenceID / 0x100_0000 && e[5] == m.conferenceID / 0x1_0000 % 0x100
            && e[6] == m.conferenceID / 0x100 % 0x100 && e[7] == m.conferenceID % 0x100
            && e[8] == m.transactionID / 0x100 && e[9] == m.transactionID % 0x100
            && e[10] == m.userID / 0x100 && e[11] == m.userID % 0x100
  {
    var n := m.(payloadLength := PayloadWords(m.attributes));
    var zeros := Zeros(Size(m.attributes));
    OverlayKeeps(Header(n) + zeros, 12, m.attributes, 12);
    HeaderParts(n, zeros);
    FirstOctetOf(m.version, m.reserved);
    var e, h := Encoding(m).value, Header(n) + zeros;
    assert forall i :: 0 <= i < 12 ==> e[i] == e[..12][i] == h[..12][i] == h[i];
    U16Octets(h[2..4], n.payloadLength);
    U32Octets(h[4..8], n.conferenceID);
    U16Octets(h[8..10], n.transactionID);
    U16Octets(h[10..12], n.userID);
  }

  lemma U16Octets(b: seq<u8>, v: u16)
    requires b == PutU16(v)
    ensures b[0] == v / 0x100 && b[1] == v % 0x100
  {
    PutU16Octets(v);
  }

  lemma U32Octets(b: seq<u8>, v: u32)
    requires b == PutU32(v)
    ensures b[0] == v / 0x100_0000 && b[1] == v / 0x1_0000 % 0x100 && b[2] == v / 0x100 % 0x100 && b[3] == v % 0x100
  {
    PutU16Octets(v / 0x1_0000);
    PutU16Octets(v % 0x1_0000);
    assert v / 0x1_0000 / 0x100 == v / 0x100_0000;
    assert v % 0x1_0000 / 0x100 == v / 0x100 % 0x100;
  }

  /** An attribute as in section 5.2 of RFC 8855: seven bits of type and the M bit, the length with its
      header, the value, and zeros up to the next word. */
  lemma AttributeLayout(typ: u8, value: seq<u8>, rest: seq<Attribute>)
    requires typ < 128 && |value| <= 253
    ensures Payload([Plain(typ, value)] + rest)
         == [2 * typ + 1, 2 + |value|] + value + Zeros((4 - (2 + |value|) % 4) % 4) + Payload(rest)
  {
    PayloadCons(Plain(typ, value), rest);
    PaddingFormula(2 + |value|);
    LowIs(2 * typ as int, 0x100, 0, 2 * typ as int);
    LowIs(2 + |value|, 0x100, 0, 2 + |value|);
  }

  // ----- the codec theorems -----------------------------------------------

  predicate Supported(m: Msg) {
    (m.version == VERSION_RFC4582 || m.version == VERSION_RFC8855) && m.reserved < 32
  }

  /** Messages whose every field has room on the wire. */
  ghost predicate WellFormed(m: Msg) {
    Supported(m) && AllFit(m.attributes) && Words(Size(m.attributes)) < 0x1_0000
  }

  /** Messages the source can send: attributes may also be pre-encoded. */
  ghost predicate Sendable(m: Msg) {
    Supported(m) && AllCarried(m.attributes) && Words(Size(m.attributes)) < 0x1_0000
  }

  lemma EncodingOf(m: Msg)
    requires AllCarried(m.attributes)
    ensures Encoding(m) == Some(Header(m.(payloadLength := PayloadWords(m.attributes))) + Payload(m.attributes))
    ensures |Payload(m.attributes)| == Size(m.attributes) && Aligned(Size(m.attributes))
  {
    PayloadSize(m.attributes);
    OverlayIsPayload(Header(m.(payloadLength := PayloadWords(m.attributes))), m.attributes);
  }

  lemma DecodingOf(n: Msg, payload: seq<u8>, trailing: seq<u8>)
    requires Supported(n) && |payload| == 4 * n.payloadLength as int && Scan(payload).Success?
    ensures Decoding(Header(n) + payload + trailing) == Success(n.(attributes := Scan(payload).value))
  {
    var data := Header(n) + (payload + trailing);
    Concat3(Header(n), payload, trailing);
    HeaderParts(n, payload + trailing);
    FieldsOfHeader(n, payload + trailing);
    assert data[12..12 + |payload|] == (payload + trailing)[..|payload|] == payload;
  }

  /** Where the walk over a payload that starts at `off` stops: it goes on while an attribute with a length
      between 2 and what is left begins there, each rounded up to whole words. */
  function WalkEnd(p: seq<u8>, off: nat): nat
    decreases |p| - off
  {
    if off + 2 <= |p| && 2 <= p[off + 1] <= |p| - off then WalkEnd(p, off + (p[off + 1] as int + 3) / 4 * 4) else off
  }

  lemma PaddedUp(n: nat)
    ensures Padded(n) == (n + 3) / 4 * 4
  {
    PaddingFormula(n);
    assert n % 4 == 0 || n % 4 == 1 || n % 4 == 2 || n % 4 == 3;
  }

  /** The walk stopped where this result says. */
  predicate StopsAs(p: seq<u8>, e: nat, r: Result<seq<Attribute>, ScanError>) {
    match r
    case Success(_) => e >= |p|
    case Failure(IncompleteHeader) => e == |p| - 1
    case Failure(BadLength) => e + 2 <= |p| && p[e + 1] < 2
    case Failure(OutOfBounds) => e + 2 <= |p| && p[e + 1] > |p| - e
  }

  lemma ScanNext(q: seq<u8>)
    requires Headed(q)
    ensures Scan(q).Success? <==> Scan(Rest(q)).Success?
    ensures Scan(q).Failure? ==> Scan(Rest(q)) == Failure(Scan(q).error)
  {
  }

  lemma StopsHere(p: seq<u8>, off: nat)
    requires off <= |p| && !Headed(p[off..])
    ensures StopsAs(p, off, Scan(p[off..])) && WalkEnd(p, off) == off
  {
  }

  lemma RestFrom(p: seq<u8>, off: nat)
    requires off <= |p| && Headed(p[off..])
    ensures var next := off + (p[off + 1] as int + 3) / 4 * 4;
            && WalkEnd(p, off) == WalkEnd(p, next)
            && Rest(p[off..]) == if next <= |p| then p[next..] else []
  {
    var q := p[off..];
    PaddedUp(q[1]);
    if off + Padded(q[1]) <= |p| {
      DropIs(q, Padded(q[1]));
    }
  }

  lemma {:induction false} WalkIsScan(p: seq<u8>, off: nat)
    requires off <= |p|
    ensures StopsAs(p, WalkEnd(p, off), Scan(p[off..]))
    decreases |p| - off
  {
    hide Scan, WalkEnd, Rest;
    if Headed(p[off..]) {
      var next := off + (p[off + 1] as int + 3) / 4 * 4;
      RestFrom(p, off);
      ScanNext(p[off..]);
      if next <= |p| {
        WalkIsScan(p, next);
      } else {
        WalkBeyond(p, next);
      }
    } else {
      StopsHere(p, off);
    }
  }

  lemma WalkBeyond(p: seq<u8>, off: nat)
    requires off > |p|
    ensures WalkEnd(p, off) == off && Scan([]).Success?
  {
  }

  /** What `Decode` rejects, in its octets, and as what. */
  lemma DecodeRejects(data: seq<u8>)
    ensures var r := Decoding(data);
            if |data| < 12 then r == Failure(TooShort)
            else if data[0] / 32 != 1 && data[0] / 32 != 2 then r == Failure(BadVersion)
            else
              var words := data[2] as int * 0x100 + data[3];
              if |data| < 12 + 4 * words then r == Failure(PayloadTooShort)
              else
                var p := data[12..12 + 4 * words];
                var e := WalkEnd(p, 0);
                && (r.Success? <==> e >= |p|)
                && (r == Failure(BadAttribute(BadLength)) <==> e + 2 <= |p| && p[e + 1] < 2)
                && (r == Failure(BadAttribute(OutOfBounds)) <==> e + 2 <= |p| && p[e + 1] > |p| - e)
  {
    if |data| >= 12 {
      LeadingBits(data[0]);
      assert data[2..4][0] == data[2] && data[2..4][1] == data[3];
      var words := data[2] as int * 0x100 + data[3];
      hide Scan, WalkEnd;
      if |data| >= 12 + 4 * words {
        var p := data[12..12 + 4 * words];
        assert p[0..] == p;
        WalkIsScan(p, 0);
      }
    }
  }

  lemma LeadingBits(b: u8)
    ensures Shr5(b) == b / 32
  {
  }

  /** Whatever can be sent is received: every header field, and the attributes with the pre-encoded
      ones read apart; trailing octets do not disturb it. */
  lemma RoundTrip(m: Msg, trailing: seq<u8>)
    requires Sendable(m)
    ensures Encoding(m).Some?
    ensures Decoding(Encoding(m).value + trailing)
         == Success(m.(payloadLength := PayloadWords(m.attributes), attributes := Expand(m.attributes)))
  {
    EncodingOf(m);
    WordsDiv(Size(m.attributes));
    ScanPayload(m.attributes);
    DecodingOf(m.(payloadLength := PayloadWords(m.attributes)), Payload(m.attributes), trailing);
  }

  lemma DecodedScan(data: seq<u8>)
    requires Decoding(data).Success?
    ensures var m := Decoding(data).value;
            var end := 12 + 4 * m.payloadLength as int;
            Supported(m) && end <= |data| && Scan(data[12..end]) == Success(m.attributes)
  {
    hide Scan;
  }

  /** A decoded message is well formed and its word count is that of its attributes. */
  lemma DecodedWellFormed(data: seq<u8>)
    requires Decoding(data).Success?
    ensures WellFormed(Decoding(data).value)
    ensures Decoding(data).value.payloadLength == PayloadWords(Decoding(data).value.attributes)
    ensures Size(Decoding(data).value.attributes) == 4 * Decoding(data).value.payloadLength as int
  {
    hide Decoding, Scan, Words, Aligned, Size, AllFit;
    var m := Decoding(data).value;
    DecodedScan(data);
    WholeWords(m.payloadLength);
    ScanFits(data[12..12 + 4 * m.payloadLength as int]);
    ScanFills(data[12..12 + 4 * m.payloadLength as int]);
  }

  lemma {:induction false} WholeWords(w: nat)
    ensures Aligned(4 * w) && Words(4 * w) == w
  {
    if w > 0 {
      WholeWords(w - 1);
    }
  }

  /** `Encode` then `Decode` gives back every header field and the same attributes exactly when the
      message is well formed. */
  lemma RoundTripIff(m: Msg)
    ensures && Encoding(m).Some?
            && Decoding(Encoding(m).value) == Success(m.(payloadLength := PayloadWords(m.attributes)))
       <==> WellFormed(m)
  {
    if WellFormed(m) {
      RoundTrip(m, []);
      ExpandPlain(m.attributes);
      assert Encoding(m).value + [] == Encoding(m).value;
    } else if Encoding(m).Some? && Decoding(Encoding(m).value).Success? {
      DecodedWellFormed(Encoding(m).value);
    }
  }

  lemma EncodingFrom(f: Msg, attrs: seq<Attribute>)
    requires AllFit(attrs) && f.payloadLength == PayloadWords(attrs)
    ensures Encoding(f.(attributes := attrs)) == Some(Header(f) + Payload(attrs))
    ensures |Payload(attrs)| == Size(attrs)
  {
    EncodingOf(f.(attributes := attrs));
    HeaderIgnoresAttributes(f, attrs);
  }

  lemma Reencoding(data: seq<u8>)
    requires Decoding(data).Success?
    ensures var m := Decoding(data).value;
            && Encoding(m) == Some(data[..12] + Payload(m.attributes))
            && |Payload(m.attributes)| == 4 * m.payloadLength as int
  {
    var f, attrs := Fields(data), Decoding(data).value.attributes;
    DecodedWellFormed(data);
    EncodingFrom(f, attrs);
    HeaderOfFields(data);
  }

  /** Re-encoding what was decoded reproduces the header, and the payload with every M bit set and
      the padding cleared; decoding that again yields the same message. */
  lemma Canonicalization(data: seq<u8>)
    requires Decoding(data).Success?
    ensures var m := Decoding(data).value;
            var end := 12 + 4 * m.payloadLength as int;
            && Encoding(m).Some?
            && |Encoding(m).value| == end <= |data|
            && Encoding(m).value[..12] == data[..12]
            && CanonicalOf(data[12..end], Encoding(m).value[12..])
            && Decoding(Encoding(m).value) == Success(m)
  {
    hide Decoding, Encoding, Scan, Words, Aligned, Size, CanonicalOf, Payload;
    var m := Decoding(data).value;
    Reencoding(data);
    WholeWords(m.payloadLength);
    DecodedScan(data);
    PayloadCanonical(data[12..12 + 4 * m.payloadLength as int]);
    assert (data[..12] + Payload(m.attributes))[12..] == Payload(m.attributes);
    DecodedWellFormed(data);
    RoundTripIff(m);
  }

  /** The incomplete-header error of the attribute loop cannot happen: payloads are whole words. */
  lemma IncompleteHeaderUnreachable(data: seq<u8>)
    ensures Decoding(data) != Failure(BadAttribute(IncompleteHeader))
  {
    if Decoding(data).Failure? && Decoding(data).error.BadAttribute? {
      var w := Fields(data).payloadLength;
      var payload := data[12..12 + 4 * w as int];
      WholeWords(w);
      if w > 0 {
        AlignedMod(4 * w as int);
        AlignedMod(4 * w as int - 1);
      }
      ParsersAgree(payload);
    }
  }
}
