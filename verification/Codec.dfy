/** The message objects of the source and the code that fills and reads octet buffers, proved
    against the definitions of Tlv, Messages and Grouped. */
module Codec {
  import opened Wrappers
  import opened Octets
  import opened Tlv
  import opened Messages
  import opened Grouped
  import opened Refusals

  // ----- buffers ----------------------------------------------------------

  method NewBuffer(n: nat) returns (buf: array<u8>)
    ensures fresh(buf) && buf[..] == Zeros(n)
  {
    buf := new u8[n](_ => 0);
  }

  lemma PutTwo(buf: seq<u8>, off: nat, a: u8, b: u8)
    requires off + 2 <= |buf|
    ensures buf[off := a][off + 1 := b] == Put(buf, off, [a, b])
  {
    assert [a, b][1..] == [b] && [b][1..] == [];
    assert Put(buf[off := a], off + 1, [b]) == Put(buf[off := a][off + 1 := b], off + 2, []);
  }

  method WriteTwo(buf: array<u8>, off: nat, a: u8, b: u8)
    requires off + 2 <= buf.Length
    modifies buf
    ensures buf[..] == Put(old(buf[..]), off, [a, b])
  {
    PutTwo(buf[..], off, a, b);
    buf[off] := a;
    assert buf[..] == old(buf[..])[off := a];
    buf[off + 1] := b;
  }

  lemma HeaderWrites(n: nat, p: seq<u8>, a: seq<u8>, b: seq<u8>, c: seq<u8>, d: seq<u8>)
    requires |p| == |a| == |c| == |d| == 2 && |b| == 4 && n >= 12
    ensures Put(Put(Put(Put(Put(Zeros(n), 0, p), 2, a), 4, b), 8, c), 10, d) == p + a + b + c + d + Zeros(n - 12)
  {
    PutOnZeros([], n, p);
    assert [] + Zeros(n) == Zeros(n) && [] + p == p;
    PutOnZeros(p, n - 2, a);
    PutOnZeros(p + a, n - 4, b);
    PutOnZeros(p + a + b, n - 8, c);
    PutOnZeros(p + a + b + c, n - 10, d);
  }

  method WriteCommonHeader(buf: array<u8>, first: u8, primitive: u8, words: u16, confID: u32, txID: u16, userID: u16)
    requires buf.Length >= COMMON_HEADER_LENGTH && buf[..] == Zeros(buf.Length)
    modifies buf
    ensures buf[..] == [first, primitive] + PutU16(words) + PutU32(confID) + PutU16(txID) + PutU16(userID)
                       + Zeros(buf.Length - COMMON_HEADER_LENGTH)
  {
    HeaderWrites(buf.Length, [first, primitive], PutU16(words), PutU32(confID), PutU16(txID), PutU16(userID));
    WriteTwo(buf, 0, first, primitive);
    PutUint16(buf, 2, words);
    PutUint32(buf, 4, confID);
    PutUint16(buf, 8, txID);
    PutUint16(buf, 10, userID);
  }

  // ----- the build helpers ------------------------------------------------

  method BuildSimpleAttr(attrType: u8, mandatory: bool, value: seq<u8>) returns (octets: seq<u8>)
    ensures octets == Wire(attrType, mandatory, value)
  {
    var header: u8 := attrType as int * 2 % 0x100 + (if mandatory then 1 else 0);
    var l := 2 + |value|;
    var pad := (4 - l % 4) % 4;
    PaddingFormula(l);
    LowMod(l, 0x100);
    var length: u8 := l % 0x100;
    ghost var head := [Shl1(attrType) + (if mandatory then 1 else 0), Low8(l)];
    assert header == head[0];
    octets := Assemble(header, length, value, l + pad);
    PutOnZeros([], l + pad, head);
    PutOnZeros(head, |value| + pad, value);
    assert [] + Zeros(l + pad) == Zeros(l + pad) && [] + head == head;
  }

  method Assemble(first: u8, second: u8, value: seq<u8>, total: nat) returns (octets: seq<u8>)
    requires 2 + |value| <= total
    ensures octets == Put(Put(Zeros(total), 0, [first, second]), 2, value)
  {
    var out := NewBuffer(total);
    WriteTwo(out, 0, first, second);
    Copy(out, 2, value);
    octets := out[..];
  }

  /** The octets the children take after the two of the header and the two of the header ID. */
  method GroupSize(children: seq<seq<u8>>) returns (size: nat)
    ensures size == 4 + |Flat(children)|
  {
    size := 4;
    var i := 0;
    while i < |children|
      invariant 0 <= i <= |children| && size + |Flat(children[i..])| == 4 + |Flat(children)|
    {
      size := size + |children[i]|;
      i := i + 1;
    }
  }

  method BuildGroupedAttrWithHeaderID(attrType: u8, mandatory: bool, headerID: u16, children: seq<seq<u8>>)
    returns (octets: seq<u8>)
    ensures octets == GroupWire(attrType, mandatory, headerID, children)
  {
    var header: u8 := attrType as int * 2 % 0x100 + (if mandatory then 1 else 0);
    var size := GroupSize(children);
    var pad := (4 - size % 4) % 4;
    PaddingFormula(size);
    LowMod(size, 0x100);
    assert header == Shl1(attrType) + (if mandatory then 1 else 0);
    var out := NewBuffer(size + pad);
    WriteGroupHeader(out, header, size % 0x100, headerID);
    CopyChildren(out, children, [header, Low8(size)] + PutU16(headerID), pad);
    octets := out[..];
    assert octets == GroupWire(attrType, mandatory, headerID, children);
  }

  method WriteGroupHeader(out: array<u8>, first: u8, second: u8, headerID: u16)
    requires out.Length >= 4 && out[..] == Zeros(out.Length)
    modifies out
    ensures out[..] == [first, second] + PutU16(headerID) + Zeros(out.Length - 4)
  {
    var n := out.Length;
    PutU16Octets(headerID);
    PutOnZeros([], n, [first, second]);
    PutOnZeros([first, second], n - 2, PutU16(headerID));
    assert [] + Zeros(n) == Zeros(n) && [] + [first, second] == [first, second];
    WriteTwo(out, 0, first, second);
    WriteTwo(out, 2, headerID / 0x100, headerID % 0x100);
  }

  method CopyChildren(out: array<u8>, children: seq<seq<u8>>, ghost head: seq<u8>, ghost pad: nat)
    requires |head| == 4 && out[..] == head + Zeros(|Flat(children)| + pad)
    modifies out
    ensures out[..] == head + Flat(children) + Zeros(pad)
  {
    var off := 4;
    var i := 0;
    ghost var done := head;
    while i < |children|
      invariant 0 <= i <= |children| && off == |done| && done + Flat(children[i..]) == head + Flat(children)
      invariant out[..] == done + Zeros(|Flat(children[i..])| + pad)
    {
      ghost var rest := Flat(children[i + 1..]);
      PutOnZeros(done, |Flat(children[i..])| + pad, children[i]);
      AppendTwice(done, children[i], rest);
      Copy(out, off, children[i]);
      done := done + children[i];
      off := off + |children[i]|;
      i := i + 1;
    }
    assert done + [] == done;
  }

  method BuildInfo(requestID: u16, status: u8, floorID: u16) returns (octets: seq<u8>)
    ensures octets == InfoOctets(requestID, status, floorID)
  {
    var requestStatus := BuildSimpleAttr(REQUEST_STATUS, false, [status, 0]);
    var overall := BuildGroupedAttrWithHeaderID(OVERALL_REQUEST_STATUS, false, requestID, [requestStatus]);
    var floor := BuildGroupedAttrWithHeaderID(FLOOR_REQUEST_STATUS_INFO, false, floorID, [requestStatus]);
    octets := BuildGroupedAttrWithHeaderID(FLOOR_REQUEST_INFO, true, requestID, [overall, floor]);
  }

  // ----- messages ---------------------------------------------------------

  class Message {
    var version: u8
    var reserved: u8
    var primitive: u8
    var payloadLength: u16
    var conferenceID: u32
    var transactionID: u16
    var userID: u16
    var attributes: seq<Attribute>

    function Value(): Msg
      reads this
    {
      Msg(version, reserved, primitive, payloadLength, conferenceID, transactionID, userID, attributes)
    }

    constructor (primitive: u8, conferenceID: u32, transactionID: u16, userID: u16)
      ensures Value() == NewMsg(primitive, conferenceID, transactionID, userID)
    {
      this.version, this.reserved, this.primitive, this.payloadLength := VERSION_RFC4582, 0, primitive, 0;
      this.conferenceID, this.transactionID, this.userID := conferenceID, transactionID, userID;
      this.attributes := [];
    }

    method AddAttribute(attrType: u8, value: seq<u8>)
      modifies this`attributes
      ensures attributes == old(attributes) + [Plain(attrType, value)]
    {
      LowMod(|value|, 0x100);
      attributes := attributes + [Attribute(attrType, |value| % 0x100, value, false)];
    }

    method AddUint16(attrType: u8, v: u16)
      modifies this`attributes
      ensures attributes == old(attributes) + [Plain(attrType, PutU16(v))]
    {
      PutU16Octets(v);
      AddAttribute(attrType, [v / 0x100, v % 0x100]);
    }

    method AddFloorID(floorID: u16)
      modifies this`attributes
      ensures attributes == old(attributes) + [Plain(FLOOR_ID, PutU16(floorID))]
    {
      AddUint16(FLOOR_ID, floorID);
    }

    method AddFloorRequestID(requestID: u16)
      modifies this`attributes
      ensures attributes == old(attributes) + [Plain(FLOOR_REQUEST_ID, PutU16(requestID))]
    {
      AddUint16(FLOOR_REQUEST_ID, requestID);
    }

    method AddRequestStatus(status: u8, queuePosition: u8)
      modifies this`attributes
      ensures attributes == old(attributes) + [Plain(REQUEST_STATUS, [status, queuePosition])]
    {
      AddAttribute(REQUEST_STATUS, [status, queuePosition]);
    }

    method AddErrorCode(errorCode: u8)
      modifies this`attributes
      ensures attributes == old(attributes) + [Plain(ERROR_CODE, [errorCode])]
    {
      AddAttribute(ERROR_CODE, [errorCode]);
    }

    method AddErrorInfo(info: string)
      modifies this`attributes
      ensures attributes == old(attributes) + [Plain(ERROR_INFO, Bytes(info))]
    {
      AddAttribute(ERROR_INFO, Bytes(info));
    }

    method AddFloorRequestInformation(requestID: u16, status: u8, floorID: u16)
      modifies this`attributes
      ensures attributes == WithInfo(old(attributes), requestID, status, floorID)
    {
      var octets := BuildInfo(requestID, status, floorID);
      LowMod(|octets|, 0x100);
      attributes := attributes + [Attribute(FLOOR_REQUEST_INFO, |octets| % 0x100, octets, true)];
    }

    method SetResponse(response: bool)
      modifies this`reserved
      ensures reserved == WithFlag(old(reserved), response)
    {
      FlagFlips(reserved);
      LowMod(reserved, 32);
      var flagged := reserved % 32 >= 16;
      if response && !flagged {
        reserved := reserved + 16;
      } else if !response && flagged {
        reserved := reserved - 16;
      }
    }

    /** The space the attributes take. */
    method AttributeLength() returns (attrLength: nat)
      ensures attrLength == Size(attributes)
    {
      attrLength := 0;
      var i := 0;
      while i < |attributes|
        invariant 0 <= i <= |attributes|
        invariant attrLength + Size(attributes[i..]) == Size(attributes)
      {
        var attr := attributes[i];
        if attr.rawTLV {
          attrLength := attrLength + |attr.value|;
        } else {
          var padding := Skip(2 + attr.length);
          attrLength := attrLength + 2 + attr.length + padding;
        }
        i := i + 1;
      }
    }

    method WriteHeader(buf: array<u8>)
      requires buf.Length >= COMMON_HEADER_LENGTH && buf[..] == Zeros(buf.Length)
      modifies buf
      ensures buf[..] == Header(Value()) + Zeros(buf.Length - COMMON_HEADER_LENGTH)
    {
      FirstOctetOf(version, reserved);
      WriteCommonHeader(buf, version % 8 * 32 + reserved % 32, primitive, payloadLength, conferenceID, transactionID,
                        userID);
    }

    method WriteAttribute(buf: array<u8>, start: nat, attr: Attribute) returns (offset: nat)
      requires start + Slot(attr) <= buf.Length
      modifies buf
      ensures offset == start + Slot(attr)
      ensures buf[..] == Filled(old(buf[..]), start, attr)
    {
      if attr.rawTLV {
        Copy(buf, start, attr.value);
        offset := start + |attr.value|;
      } else {
        LowMod(2 + attr.length, 0x100);
        var header, length: u8 := attr.typ as int * 2 % 0x100 + 1, (attr.length as int + 2) % 0x100;
        assert header == Shl1(attr.typ) + 1;
        WriteTwo(buf, start, header, length);
        Copy(buf, start + 2, attr.value);
        var padding := Skip(2 + attr.length);
        offset := start + 2 + attr.length + padding;
      }
    }

    method WriteAttributes(buf: array<u8>)
      requires COMMON_HEADER_LENGTH + Size(attributes) == buf.Length
      modifies buf
      ensures buf[..] == Overlay(old(buf[..]), COMMON_HEADER_LENGTH, attributes)
    {
      var offset: nat := COMMON_HEADER_LENGTH;
      var i := 0;
      assert attributes[0..] == attributes;
      while i < |attributes|
        invariant 0 <= i <= |attributes|
        invariant offset + Size(attributes[i..]) == buf.Length
        invariant Overlay(buf[..], offset, attributes[i..]) == Overlay(old(buf[..]), COMMON_HEADER_LENGTH, attributes)
      {
        assert attributes[i..][1..] == attributes[i + 1..];
        offset := WriteAttribute(buf, offset, attributes[i]);
        i := i + 1;
      }
    }

    method Encode() returns (r: Option<seq<u8>>)
      modifies this`payloadLength
      ensures r == Encoding(old(Value()))
      ensures payloadLength == if r.Some? then PayloadWords(attributes) else old(payloadLength)
    {
      var attrLength := AttributeLength();
      AlignedMod(attrLength);
      if attrLength % 4 != 0 {
        return None;
      }
      WordsDiv(attrLength);
      LowMod(attrLength / 4, 0x1_0000);
      payloadLength := attrLength / 4 % 0x1_0000;
      var buf := NewBuffer(COMMON_HEADER_LENGTH + attrLength);
      WriteHeader(buf);
      WriteAttributes(buf);
      r := Some(buf[..]);
    }

    method GetAttribute(attrType: u8) returns (r: Option<Attribute>)
      ensures r == First(attributes, attrType)
    {
      var i := 0;
      while i < |attributes|
        invariant 0 <= i <= |attributes|
        invariant First(attributes[i..], attrType) == First(attributes, attrType)
      {
        if attributes[i].typ == attrType {
          return Some(attributes[i]);
        }
        i := i + 1;
      }
      r := None;
    }

    /** One turn of the loop below. */
    method ReadInfo(attr: Attribute) returns (infos: seq<FloorRequestInfo>)
      ensures infos == InfoOf(attr)
    {
      infos := [];
      if attr.typ == FLOOR_REQUEST_INFO && !(attr.rawTLV && |attr.value| < 2) {
        var info := ParseFloorRequestInfo(if attr.rawTLV then attr.value[2..] else attr.value);
        if info.Some? {
          infos := [info.value];
        }
      }
    }

    method FloorRequestInfos() returns (infos: seq<FloorRequestInfo>)
      ensures infos == Infos(attributes)
    {
      infos := [];
      var i := 0;
      while i < |attributes|
        invariant 0 <= i <= |attributes|
        invariant infos + Infos(attributes[i..]) == Infos(attributes)
      {
        var found := ReadInfo(attributes[i]);
        AppendTwice(infos, found, Infos(attributes[i + 1..]));
        infos := infos + found;
        i := i + 1;
      }
      AppendTwice(infos, [], []);
    }
  }

  lemma AppendTwice<T>(a: seq<T>, b: seq<T>, c: seq<T>)
    ensures a + (b + c) == a + b + c
    ensures a + [] == a
  {
  }

  // ----- the nested reader ------------------------------------------------

  method ReadRequestStatus(data: seq<u8>) returns (r: Option<(u8, u8)>)
    ensures r == FindRequestStatus(data)
  {
    var subs, ok := ParseTLVs(data);
    if !ok {
      return None;
    }
    var i := 0;
    while i < |subs|
      invariant 0 <= i <= |subs|
      invariant FirstStatus(subs[i..]) == FirstStatus(subs)
    {
      if subs[i].typ == REQUEST_STATUS && |subs[i].value| >= 2 {
        return Some((subs[i].value[0], subs[i].value[1]));
      }
      i := i + 1;
    }
    r := None;
  }

  method AbsorbSub(info: FloorRequestInfo, sub: Attribute) returns (r: FloorRequestInfo)
    ensures r == Absorb(info, sub)
  {
    r := info;
    if |sub.value| < 2 {
      return;
    }
    var id := GetU16(sub.value[..2]);
    if sub.typ == OVERALL_REQUEST_STATUS {
      var found := ReadRequestStatus(sub.value[2..]);
      if found.Some? {
        r := r.(overallStatus := found.value.0, queuePosition := found.value.1, hasOverall := true);
      }
    } else if sub.typ == FLOOR_REQUEST_STATUS_INFO {
      var found := ReadRequestStatus(sub.value[2..]);
      var (status, pos) := found.GetOr((0, 0));
      r := r.(floors := r.floors + [FloorRequestStatusInfo(id, status, pos, found.Some?)]);
    } else if sub.typ == BENEFICIARY_INFO {
      r := r.(beneficiaryID := id, hasBeneficiary := true);
    } else if sub.typ == REQUESTED_BY_INFO {
      r := r.(requestedByID := id, hasRequestedBy := true);
    } else if sub.typ == PRIORITY {
      r := r.(priority := id, hasPriority := true);
    }
  }

  method ParseFloorRequestInfo(value: seq<u8>) returns (r: Option<FloorRequestInfo>)
    ensures r == ParseInfo(value)
  {
    if |value| < 2 {
      return None;
    }
    var info := Blank(GetU16(value[..2]));
    var subs, ok := ParseTLVs(value[2..]);
    if !ok {
      return None;
    }
    ghost var start := info;
    var i := 0;
    while i < |subs|
      invariant 0 <= i <= |subs|
      invariant AbsorbAll(info, subs[i..]) == AbsorbAll(start, subs)
    {
      assert subs[i..][1..] == subs[i + 1..];
      info := AbsorbSub(info, subs[i]);
      i := i + 1;
    }
    r := Some(info);
  }

  // ----- Decode -----------------------------------------------------------

  method DecodeHeader(data: seq<u8>) returns (m: Message)
    requires |data| >= COMMON_HEADER_LENGTH
    ensures fresh(m) && m.Value() == Fields(data)
  {
    m := new Message(data[1], GetU32(data[4..8]), GetU16(data[8..10]), GetU16(data[10..12]));
    m.version := data[0] / 32;
    m.reserved := data[0] % 32;
    m.payloadLength := GetU16(data[2..4]);
  }

  lemma SliceOfPrefix(data: seq<u8>, end: nat, lo: nat, hi: nat)
    requires lo <= hi <= end <= |data|
    ensures data[..end][lo..hi] == data[lo..hi]
  {
  }

  /** The attribute loop of `Decode`. */
  method DecodeAttributes(data: seq<u8>, endOffset: nat) returns (r: Result<seq<Attribute>, ScanError>)
    requires COMMON_HEADER_LENGTH <= endOffset <= |data|
    ensures r == ScanFrom(data[..endOffset], COMMON_HEADER_LENGTH, [])
  {
    ghost var body := data[..endOffset];
    var offset: nat := COMMON_HEADER_LENGTH;
    var attrs: seq<Attribute> := [];
    while offset < endOffset
      invariant ScanFrom(body, offset, attrs) == ScanFrom(body, COMMON_HEADER_LENGTH, [])
      decreases endOffset - offset
    {
      if offset + 2 > endOffset {
        return Failure(IncompleteHeader);
      }
      var typeOctet, attrLength := data[offset], data[offset + 1];
      if attrLength < 2 {
        return Failure(BadLength);
      }
      var valueLength := attrLength - 2;
      if offset + 2 + valueLength > endOffset {
        return Failure(OutOfBounds);
      }
      var value := data[offset + 2..offset + 2 + valueLength];
      SliceOfPrefix(data, endOffset, offset + 2, offset + attrLength);
      attrs := attrs + [Attribute(typeOctet / 2, valueLength, value, false)];
      var padding := Skip(attrLength);
      offset := offset + 2 + valueLength + padding;
    }
    PrependNothing(attrs);
    r := Success(attrs);
  }

  method Decode(data: seq<u8>) returns (r: Result<Message, DecodeError>)
    ensures r.Success? ==> fresh(r.value) && Decoding(data) == Success(r.value.Value())
    ensures r.Failure? ==> Decoding(data) == Failure(r.error)
  {
    if |data| < COMMON_HEADER_LENGTH {
      return Failure(TooShort);
    }
    var m := DecodeHeader(data);
    if m.version != VERSION_RFC4582 && m.version != VERSION_RFC8855 {
      return Failure(BadVersion);
    }
    var endOffset := COMMON_HEADER_LENGTH + 4 * m.payloadLength as int;
    if |data| < endOffset {
      return Failure(PayloadTooShort);
    }
    var attrs := DecodeAttributes(data, endOffset);
    BodyScan(data, endOffset);
    match attrs {
      case Failure(e) => r := Failure(BadAttribute(e));
      case Success(list) =>
        m.attributes := list;
        r := Success(m);
    }
  }

  lemma BodyScan(data: seq<u8>, endOffset: nat)
    requires COMMON_HEADER_LENGTH <= endOffset <= |data|
    ensures ScanFrom(data[..endOffset], COMMON_HEADER_LENGTH, []) == Scan(data[COMMON_HEADER_LENGTH..endOffset])
  {
    var body := data[..endOffset];
    ScanFromDrop(body, COMMON_HEADER_LENGTH, []);
    DropIs(body, COMMON_HEADER_LENGTH);
    assert body[COMMON_HEADER_LENGTH..] == data[COMMON_HEADER_LENGTH..endOffset];
    var r := Scan(data[COMMON_HEADER_LENGTH..endOffset]);
    assert r.Success? ==> [] + r.value == r.value;
  }

  // ----- the direct FloorStatus printer -----------------------------------

  /** The FloorStatus message of that version with `AddFloorID` and
      `AddFloorRequestInformationRFC4582` applied. */
  ghost function FloorStatusMsg(version: u8, confID: u32, txID: u16, userID: u16, floorID: u16, requestID: u16,
                                status: u8): Msg {
    NewMsg(FLOOR_STATUS, confID, txID, userID).(
      version := version, attributes := WithInfo([Plain(FLOOR_ID, PutU16(floorID))], requestID, status, floorID))
  }

  /** Byte for byte what `Encode` returns on that message. */
  method BuildFloorStatusMessage(version: u8, confID: u32, txID: u16, userID: u16, floorID: u16, requestID: u16,
                                 status: u8)
    returns (octets: seq<u8>)
    ensures Encoding(FloorStatusMsg(version, confID, txID, userID, floorID, requestID, status)) == Some(octets)
  {
    PutU16Octets(floorID);
    var floorIDAttr := BuildSimpleAttr(FLOOR_ID, true, [floorID / 0x100, floorID % 0x100]);
    var infoAttr := BuildInfo(requestID, status, floorID);
    var payload := floorIDAttr + infoAttr;
    FloorStatusEncoding(version, confID, txID, userID, floorID, requestID, status);
    var lengthWords: u16 := |payload| / 4;
    var buf := NewBuffer(COMMON_HEADER_LENGTH + |payload|);
    FirstOctetOf(version, 0);
    WriteCommonHeader(buf, version % 8 * 32, FLOOR_STATUS, lengthWords, confID, txID, userID);
    ghost var msg := FloorStatusMsg(version, confID, txID, userID, floorID, requestID, status);
    ghost var header := Header(msg.(payloadLength := 6));
    assert buf[..] == header + Zeros(|payload|);
    Copy(buf, 12, payload);
    PutOnZeros(header, |payload|, payload);
    octets := buf[..];
    assert header + payload + [] == header + payload;
  }

  lemma FloorStatusEncoding(version: u8, confID: u32, txID: u16, userID: u16, floorID: u16, requestID: u16, status: u8)
    ensures var m := FloorStatusMsg(version, confID, txID, userID, floorID, requestID, status);
            var payload := Wire(FLOOR_ID, true, PutU16(floorID)) + InfoOctets(requestID, status, floorID);
            |payload| == 24 && Encoding(m) == Some(Header(m.(payloadLength := 6)) + payload)
  {
    var m := FloorStatusMsg(version, confID, txID, userID, floorID, requestID, status);
    var first, info := Plain(FLOOR_ID, PutU16(floorID)), InfoAttribute(requestID, status, floorID);
    NestedRoundTrip([first], requestID, status, floorID);
    EncodingOf(m);
    InfoSize(requestID, status, floorID);
    AlignedMod(4);
    SizeCons(first, [info]);
    assert [first] + [info] == m.attributes;
    WordsDiv(24);
    PayloadCons(first, [info]);
    PayloadCons(info, []);
    assert [info] + [] == [info];
    assert InfoOctets(requestID, status, floorID) + [] == InfoOctets(requestID, status, floorID);
  }

  /** Whoever receives those octets reads the floor, the request and its status from either attribute. */
  lemma FloorStatusReads(version: u8, confID: u32, txID: u16, userID: u16, floorID: u16, requestID: u16, status: u8)
    requires version == VERSION_RFC4582 || version == VERSION_RFC8855
    ensures var m := FloorStatusMsg(version, confID, txID, userID, floorID, requestID, status);
            && Encoding(m).Some? && Decoding(Encoding(m).value).Success?
            && var n := Decoding(Encoding(m).value).value;
               && n.primitive == FLOOR_STATUS && n.version == version && n.conferenceID == confID && n.reserved == 0
               && n.transactionID == txID && n.userID == userID && Reading(n, requestID, status, floorID)
               && FirstU16(n.attributes, FLOOR_ID) == Some(floorID)
               && Infos(n.attributes) == [TheInfo(requestID, status, floorID)]
  {
    hide Infos, Encoding, Decoding, Expand, WithInfo, AllCarried, First, Size, Words;
    var m := FloorStatusMsg(version, confID, txID, userID, floorID, requestID, status);
    FloorStatusSendable(version, confID, txID, userID, floorID, requestID, status);
    RoundTrip(m, []);
    assert Encoding(m).value + [] == Encoding(m).value;
    FloorStatusExpands(requestID, status, floorID);
  }

  lemma FloorStatusSendable(version: u8, confID: u32, txID: u16, userID: u16, floorID: u16, requestID: u16, status: u8)
    requires version == VERSION_RFC4582 || version == VERSION_RFC8855
    ensures Sendable(FloorStatusMsg(version, confID, txID, userID, floorID, requestID, status))
  {
    var first, info := Plain(FLOOR_ID, PutU16(floorID)), InfoAttribute(requestID, status, floorID);
    hide InfoAttribute, PutU16;
    NestedRoundTrip([first], requestID, status, floorID);
    InfoSize(requestID, status, floorID);
    SizeCons(first, [info]);
    AlignedMod(4);
    WordsDiv(24);
  }

  lemma FirstTwo(a: Attribute, b: Attribute, typ: u8)
    ensures First([a] + [b], typ) == if a.typ == typ then Some(a) else if b.typ == typ then Some(b) else None
  {
    assert ([a] + [b])[1..] == [b];
    assert [b][1..] == [] && First([], typ) == None;
    assert First([b], typ) == if b.typ == typ then Some(b) else None;
  }

  lemma FloorStatusExpands(requestID: u16, status: u8, floorID: u16)
    ensures AllCarried(WithInfo([Plain(FLOOR_ID, PutU16(floorID))], requestID, status, floorID))
    ensures var attrs := Expand(WithInfo([Plain(FLOOR_ID, PutU16(floorID))], requestID, status, floorID));
            && First(attrs, FLOOR_ID) == Some(Plain(FLOOR_ID, PutU16(floorID)))
            && First(attrs, FLOOR_REQUEST_ID) == None && First(attrs, REQUEST_STATUS) == None
            && Infos(attrs) == [TheInfo(requestID, status, floorID)]
  {
    var first, info := Plain(FLOOR_ID, PutU16(floorID)), InfoAttribute(requestID, status, floorID);
    hide First, Infos, Expand, Expanded, Carried, InfoAttribute, InfoValueOctets, InfoOf;
    NestedRoundTrip([first], requestID, status, floorID);
    InfoAttributeReads(requestID, status, floorID);
    var read := Expanded(info)[0];
    ExpandsTo(first, info, read);
    FirstTwo(first, read, FLOOR_ID);
    FirstTwo(first, read, FLOOR_REQUEST_ID);
    FirstTwo(first, read, REQUEST_STATUS);
    PlainHasNoInfo(first);
    assert [] + [TheInfo(requestID, status, floorID)] == [TheInfo(requestID, status, floorID)];
  }

  lemma PlainHasNoInfo(a: Attribute)
    requires a.typ != FLOOR_REQUEST_INFO
    ensures Infos([a]) == []
  {
    InfosOfOne(a);
  }

  lemma ExpandsTo(first: Attribute, info: Attribute, read: Attribute)
    requires Fits(first) && Carried(info) && Expanded(info) == [read]
    ensures AllCarried([first] + [info]) && Expand([first] + [info]) == [first] + [read]
  {
    ExpandAppend([first], [info]);
    ExpandPlain([first]);
    assert Expand([info]) == [read] by {
      assert [info][1..] == [] && Expanded(info) + [] == Expanded(info);
    }
  }
}
