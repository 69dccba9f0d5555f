/** Grouped attributes (sections 5.2.15, 5.2.17 and 5.2.18 of RFC 8855): attributes nested in
    attributes, their reader and the message accessors built on it. */
module Grouped {
  import opened Wrappers
  import opened Octets
  import opened Tlv
  import opened Messages

  datatype FloorRequestStatusInfo =
    FloorRequestStatusInfo(floorID: u16, status: u8, queuePosition: u8, hasStatus: bool)

  datatype FloorRequestInfo =
    FloorRequestInfo(floorRequestID: u16, overallStatus: u8, queuePosition: u8, hasOverall: bool,
                     floors: seq<FloorRequestStatusInfo>, beneficiaryID: u16, hasBeneficiary: bool,
                     requestedByID: u16, hasRequestedBy: bool, priority: u16, hasPriority: bool)

  function Blank(floorRequestID: u16): FloorRequestInfo {
    FloorRequestInfo(floorRequestID, 0, 0, false, [], 0, false, 0, false, 0, false)
  }

  // ----- printing ---------------------------------------------------------

  function Flat(children: seq<seq<u8>>): seq<u8> {
    if children == [] then [] else children[0] + Flat(children[1..])
  }

  /** A grouped attribute: a simple one whose value is the header ID followed by the children. */
  ghost function GroupWire(typ: u8, mandatory: bool, headerID: u16, children: seq<seq<u8>>): seq<u8> {
    Wire(typ, mandatory, PutU16(headerID) + Flat(children))
  }

  /** FLOOR-REQUEST-INFORMATION holding an OVERALL-REQUEST-STATUS and one FLOOR-REQUEST-STATUS. */
  ghost function InfoOctets(requestID: u16, status: u8, floorID: u16): seq<u8> {
    var requestStatus := Wire(REQUEST_STATUS, false, [status, 0]);
    var overall := GroupWire(OVERALL_REQUEST_STATUS, false, requestID, [requestStatus]);
    var floor := GroupWire(FLOOR_REQUEST_STATUS_INFO, false, floorID, [requestStatus]);
    GroupWire(FLOOR_REQUEST_INFO, true, requestID, [overall, floor])
  }

  ghost function InfoAttribute(requestID: u16, status: u8, floorID: u16): Attribute {
    Attribute(FLOOR_REQUEST_INFO, Low8(|InfoOctets(requestID, status, floorID)|),
              InfoOctets(requestID, status, floorID), true)
  }

  // ----- reading ----------------------------------------------------------

  function FirstStatus(subs: seq<Attribute>): Option<(u8, u8)> {
    if subs == [] then None
    else if subs[0].typ == REQUEST_STATUS && |subs[0].value| >= 2 then Some((subs[0].value[0], subs[0].value[1]))
    else FirstStatus(subs[1..])
  }

  /** `findRequestStatus` */
  function FindRequestStatus(data: seq<u8>): Option<(u8, u8)> {
    var (subs, ok) := Tlvs(data);
    if ok then FirstStatus(subs) else None
  }

  /** One turn of the loop of `parseFloorRequestInfo`. */
  function Absorb(info: FloorRequestInfo, sub: Attribute): FloorRequestInfo {
    if |sub.value| < 2 then info
    else if sub.typ == OVERALL_REQUEST_STATUS then
      match FindRequestStatus(sub.value[2..])
      case None => info
      case Some((status, pos)) => info.(overallStatus := status, queuePosition := pos, hasOverall := true)
    else if sub.typ == FLOOR_REQUEST_STATUS_INFO then
      var found := FindRequestStatus(sub.value[2..]);
      var (status, pos) := found.GetOr((0, 0));
      info.(floors := info.floors + [FloorRequestStatusInfo(GetU16(sub.value[..2]), status, pos, found.Some?)])
    else if sub.typ == BENEFICIARY_INFO then info.(beneficiaryID := GetU16(sub.value[..2]), hasBeneficiary := true)
    else if sub.typ == REQUESTED_BY_INFO then info.(requestedByID := GetU16(sub.value[..2]), hasRequestedBy := true)
    else if sub.typ == PRIORITY then info.(priority := GetU16(sub.value[..2]), hasPriority := true)
    else info
  }

  function AbsorbAll(info: FloorRequestInfo, subs: seq<Attribute>): FloorRequestInfo
    decreases |subs|
  {
    if subs == [] then info else AbsorbAll(Absorb(info, subs[0]), subs[1..])
  }

  /** `parseFloorRequestInfo` */
  function ParseInfo(value: seq<u8>): Option<FloorRequestInfo> {
    if |value| < 2 then None
    else
      var (subs, ok) := Tlvs(value[2..]);
      if ok then Some(AbsorbAll(Blank(GetU16(value[..2])), subs)) else None
  }

  /** The value of a FLOOR-REQUEST-INFORMATION; a pre-encoded one still carries its two header octets. */
  function InfoValue(a: Attribute): Option<seq<u8>> {
    if a.typ != FLOOR_REQUEST_INFO then None
    else if !a.rawTLV then Some(a.value)
    else if |a.value| < 2 then None
    else Some(a.value[2..])
  }

  function InfoOf(a: Attribute): seq<FloorRequestInfo> {
    match InfoValue(a)
    case None => []
    case Some(value) =>
      match ParseInfo(value)
      case None => []
      case Some(info) => [info]
  }

  /** `FloorRequestInfos` */
  function Infos(attrs: seq<Attribute>): seq<FloorRequestInfo> {
    if attrs == [] then [] else InfoOf(attrs[0]) + Infos(attrs[1..])
  }

  /** `GetAttribute` */
  function First(attrs: seq<Attribute>, typ: u8): Option<Attribute> {
    if attrs == [] then None else if attrs[0].typ == typ then Some(attrs[0]) else First(attrs[1..], typ)
  }

  /** The two-octet value of the first attribute of a type, if it is long enough. */
  function FirstU16(attrs: seq<Attribute>, typ: u8): Option<u16> {
    match First(attrs, typ)
    case None => None
    case Some(a) => if |a.value| >= 2 then Some(GetU16(a.value)) else None
  }

  function FirstFloor(infos: seq<FloorRequestInfo>): Option<u16> {
    if infos == [] then None
    else if infos[0].floors != [] then Some(infos[0].floors[0].floorID)
    else FirstFloor(infos[1..])
  }

  function FirstKnown(floors: seq<FloorRequestStatusInfo>): Option<u8> {
    if floors == [] then None else if floors[0].hasStatus then Some(floors[0].status) else FirstKnown(floors[1..])
  }

  /** `FloorRequestInfo.Status` */
  function StatusOf(info: FloorRequestInfo): Option<u8> {
    if info.hasOverall then Some(info.overallStatus) else FirstKnown(info.floors)
  }

  function FirstInfoStatus(infos: seq<FloorRequestInfo>): Option<(u8, u8)> {
    if infos == [] then None
    else
      match StatusOf(infos[0])
      case Some(status) => Some((status, infos[0].queuePosition))
      case None => FirstInfoStatus(infos[1..])
  }

  /** `GetFloorID` */
  function FloorIDOf(m: Msg): Option<u16> {
    var direct := FirstU16(m.attributes, FLOOR_ID);
    if direct.Some? then direct else FirstFloor(Infos(m.attributes))
  }

  /** `GetFloorRequestID` */
  function FloorRequestIDOf(m: Msg): Option<u16> {
    var direct := FirstU16(m.attributes, FLOOR_REQUEST_ID);
    if direct.Some? then direct
    else
      var infos := Infos(m.attributes);
      if infos != [] then Some(infos[0].floorRequestID) else None
  }

  /** `GetRequestStatus`: the status and the queue position. */
  function RequestStatusOf(m: Msg): Option<(u8, u8)> {
    match First(m.attributes, REQUEST_STATUS)
    case Some(a) => if |a.value| >= 2 then Some((a.value[0], a.value[1])) else FirstInfoStatus(Infos(m.attributes))
    case None => FirstInfoStatus(Infos(m.attributes))
  }

  // ----- the reader undoes the printer ------------------------------------

  function TheInfo(requestID: u16, status: u8, floorID: u16): FloorRequestInfo {
    Blank(requestID).(overallStatus := status, queuePosition := 0, hasOverall := true,
                      floors := [FloorRequestStatusInfo(floorID, status, 0, true)])
  }

  ghost function StatusGroup(typ: u8, headerID: u16, status: u8): Spec {
    Spec(typ, false, PutU16(headerID) + Wire(REQUEST_STATUS, false, [status, 0]))
  }

  lemma StatusGroupRead(typ: u8, headerID: u16, status: u8)
    ensures var value := StatusGroup(typ, headerID, status).value;
            && |value| == 6 && GetU16(value[..2]) == headerID && FindRequestStatus(value[2..]) == Some((status, 0))
  {
    var leaf := [Spec(REQUEST_STATUS, false, [status, 0])];
    var wire := Wire(REQUEST_STATUS, false, [status, 0]);
    var value := PutU16(headerID) + wire;
    assert value[..2] == PutU16(headerID);
    assert value[2..] == wire == Children(leaf);
    TlvsOfChildren(leaf);
  }

  ghost function InfoValueOctets(requestID: u16, status: u8, floorID: u16): seq<u8> {
    PutU16(requestID) + Children([StatusGroup(OVERALL_REQUEST_STATUS, requestID, status),
                                  StatusGroup(FLOOR_REQUEST_STATUS_INFO, floorID, status)])
  }

  lemma InfoOctetsAre(requestID: u16, status: u8, floorID: u16)
    ensures InfoOctets(requestID, status, floorID)
              == Wire(FLOOR_REQUEST_INFO, true, InfoValueOctets(requestID, status, floorID))
    ensures |InfoValueOctets(requestID, status, floorID)| == 18
  {
    var requestStatus := Wire(REQUEST_STATUS, false, [status, 0]);
    var overall, floor := StatusGroup(OVERALL_REQUEST_STATUS, requestID, status),
      StatusGroup(FLOOR_REQUEST_STATUS_INFO, floorID, status);
    var w1, w2 := Wire(overall.typ, false, overall.value), Wire(floor.typ, false, floor.value);
    assert Flat([requestStatus]) == requestStatus;
    assert Flat([w1, w2]) == w1 + w2 by {
      assert [w1, w2][1..] == [w2];
      assert Flat([w2]) == w2;
    }
    assert Children([overall, floor]) == w1 + w2 by {
      assert [overall, floor][1..] == [floor];
      assert Children([floor]) == w2;
    }
  }

  lemma AbsorbGroups(info: FloorRequestInfo, requestID: u16, status: u8, floorID: u16)
    ensures var group := StatusGroup(OVERALL_REQUEST_STATUS, requestID, status);
            Absorb(info, Plain(group.typ, group.value))
            == info.(overallStatus := status, queuePosition := 0, hasOverall := true)
    ensures var group := StatusGroup(FLOOR_REQUEST_STATUS_INFO, floorID, status);
            Absorb(info, Plain(group.typ, group.value))
            == info.(floors := info.floors + [FloorRequestStatusInfo(floorID, status, 0, true)])
  {
    StatusGroupRead(OVERALL_REQUEST_STATUS, requestID, status);
    StatusGroupRead(FLOOR_REQUEST_STATUS_INFO, floorID, status);
  }

  lemma AbsorbTwo(info: FloorRequestInfo, a: Attribute, b: Attribute)
    ensures AbsorbAll(info, [a, b]) == Absorb(Absorb(info, a), b)
  {
    var once := Absorb(info, a);
    assert [a, b][1..] == [b];
    assert AbsorbAll(once, [b]) == AbsorbAll(Absorb(once, b), []);
  }

  lemma InfoReads(requestID: u16, status: u8, floorID: u16)
    ensures ParseInfo(InfoValueOctets(requestID, status, floorID)) == Some(TheInfo(requestID, status, floorID))
  {
    var overall, floor := StatusGroup(OVERALL_REQUEST_STATUS, requestID, status),
      StatusGroup(FLOOR_REQUEST_STATUS_INFO, floorID, status);
    var specs := [overall, floor];
    var value := InfoValueOctets(requestID, status, floorID);
    assert value[..2] == PutU16(requestID) && value[2..] == Children(specs);
    TlvsOfChildren(specs);
    var a, b := Plain(overall.typ, overall.value), Plain(floor.typ, floor.value);
    assert Read(specs) == [a, b];
    var blank := Blank(requestID);
    AbsorbTwo(blank, a, b);
    AbsorbGroups(blank, requestID, status, floorID);
    AbsorbGroups(Absorb(blank, a), requestID, status, floorID);
    assert blank.floors + [FloorRequestStatusInfo(floorID, status, 0, true)]
             == [FloorRequestStatusInfo(floorID, status, 0, true)];
  }

  /** A FLOOR-REQUEST-INFORMATION is read back as written, in memory and as the peer receives it. */
  lemma InfoAttributeReads(requestID: u16, status: u8, floorID: u16)
    ensures var a := InfoAttribute(requestID, status, floorID);
            && Carried(a)
            && Expanded(a) == [Plain(FLOOR_REQUEST_INFO, InfoValueOctets(requestID, status, floorID))]
            && InfoOf(a) == InfoOf(Expanded(a)[0]) == [TheInfo(requestID, status, floorID)]
  {
    var value := InfoValueOctets(requestID, status, floorID);
    var octets := Wire(FLOOR_REQUEST_INFO, true, value);
    InfoOctetsAre(requestID, status, floorID);
    InfoReads(requestID, status, floorID);
    AlignedMod(20);
    ScanWire(FLOOR_REQUEST_INFO, true, value);
    assert octets[2..] == value;
  }

  // ----- messages carrying a FLOOR-REQUEST-INFORMATION ---------------------

  lemma {:induction false} InfosAppend(a: seq<Attribute>, b: seq<Attribute>)
    ensures Infos(a + b) == Infos(a) + Infos(b)
  {
    if a == [] {
      assert a + b == b;
    } else {
      assert (a + b)[1..] == a[1..] + b;
      InfosAppend(a[1..], b);
      assert InfoOf(a[0]) + (Infos(a[1..]) + Infos(b)) == InfoOf(a[0]) + Infos(a[1..]) + Infos(b);
    }
  }

  lemma {:induction false} FirstAppend(a: seq<Attribute>, b: seq<Attribute>, typ: u8)
    ensures First(a + b, typ) == if First(a, typ).Some? then First(a, typ) else First(b, typ)
  {
    if a == [] {
      assert a + b == b;
    } else {
      assert (a + b)[1..] == a[1..] + b;
      FirstAppend(a[1..], b, typ);
    }
  }

  lemma {:induction false} ExpandAppend(a: seq<Attribute>, b: seq<Attribute>)
    requires AllCarried(a) && AllCarried(b)
    ensures AllCarried(a + b) && Expand(a + b) == Expand(a) + Expand(b)
  {
    if a == [] {
      assert a + b == b;
    } else {
      assert (a + b)[1..] == a[1..] + b;
      ExpandAppend(a[1..], b);
      assert Expanded(a[0]) + (Expand(a[1..]) + Expand(b)) == Expanded(a[0]) + Expand(a[1..]) + Expand(b);
    }
  }

  /** The attributes after `AddFloorRequestInformationRFC4582`. */
  ghost function WithInfo(attrs: seq<Attribute>, requestID: u16, status: u8, floorID: u16): seq<Attribute> {
    attrs + [InfoAttribute(requestID, status, floorID)]
  }

  lemma InfosOfOne(a: Attribute)
    ensures Infos([a]) == InfoOf(a)
  {
    assert [a][1..] == [];
  }

  /** What `AddFloorRequestInformationRFC4582` writes is what `FloorRequestInfos` reads, in memory and
      from the attributes the peer receives, after any attributes already there. */
  lemma NestedRoundTrip(attrs: seq<Attribute>, requestID: u16, status: u8, floorID: u16)
    requires AllFit(attrs)
    ensures AllCarried(WithInfo(attrs, requestID, status, floorID))
    ensures Infos(WithInfo(attrs, requestID, status, floorID)) == Infos(attrs) + [TheInfo(requestID, status, floorID)]
    ensures Infos(Expand(WithInfo(attrs, requestID, status, floorID)))
              == Infos(attrs) + [TheInfo(requestID, status, floorID)]
  {
    var a := InfoAttribute(requestID, status, floorID);
    InfoAttributeReads(requestID, status, floorID);
    InfosAppend(attrs, [a]);
    InfosOfOne(a);
    ExpandAppend(attrs, [a]);
    ExpandPlain(attrs);
    assert Expand([a]) == Expanded(a) by {
      assert [a][1..] == [] && Expanded(a) + [] == Expanded(a);
    }
    InfosAppend(attrs, Expanded(a));
    InfosOfOne(Expanded(a)[0]);
  }

  predicate Reading(m: Msg, requestID: u16, status: u8, floorID: u16) {
    FloorIDOf(m) == Some(floorID) && FloorRequestIDOf(m) == Some(requestID) && RequestStatusOf(m) == Some((status, 0))
  }

  /** A message whose only attribute is that FLOOR-REQUEST-INFORMATION: its accessors give the three
      numbers back, on the sender's message and on the one the receiver decodes. */
  lemma StatusMessageReads(m: Msg, requestID: u16, status: u8, floorID: u16)
    requires Supported(m) && m.attributes == WithInfo([], requestID, status, floorID)
    ensures Reading(m, requestID, status, floorID)
    ensures Encoding(m).Some?
    ensures Decoding(Encoding(m).value).Success?
    ensures var n := Decoding(Encoding(m).value).value;
            && n == m.(payloadLength := n.payloadLength, attributes := n.attributes)
            && Infos(n.attributes) == [TheInfo(requestID, status, floorID)]
            && Reading(n, requestID, status, floorID)
  {
    NestedRoundTrip([], requestID, status, floorID);
    InfoAttributeReads(requestID, status, floorID);
    var a := InfoAttribute(requestID, status, floorID);
    assert m.attributes == [a];
    assert Expand([a]) == Expanded(a) by {
      assert [a][1..] == [] && Expanded(a) + [] == Expanded(a);
    }
    InfoSize(requestID, status, floorID);
    RoundTrip(m, []);
    assert Encoding(m).value + [] == Encoding(m).value;
    assert [] + [TheInfo(requestID, status, floorID)] == [TheInfo(requestID, status, floorID)];
    OnlyInfoReads(m, a, requestID, status, floorID);
    OnlyInfoReads(Decoding(Encoding(m).value).value, Expanded(a)[0], requestID, status, floorID);
  }

  lemma InfoSize(requestID: u16, status: u8, floorID: u16)
    ensures Size([InfoAttribute(requestID, status, floorID)]) == 20
  {
    InfoOctetsAre(requestID, status, floorID);
    AlignedMod(20);
    SizeCons(InfoAttribute(requestID, status, floorID), []);
    assert [InfoAttribute(requestID, status, floorID)] + [] == [InfoAttribute(requestID, status, floorID)];
  }

  lemma OnlyInfoReads(m: Msg, a: Attribute, requestID: u16, status: u8, floorID: u16)
    requires m.attributes == [a] && a.typ == FLOOR_REQUEST_INFO && InfoOf(a) == [TheInfo(requestID, status, floorID)]
    ensures Reading(m, requestID, status, floorID)
  {
    InfosOfOne(a);
    assert [a][1..] == [];
    assert forall typ: u8 :: typ != FLOOR_REQUEST_INFO ==> First([a], typ) == First([], typ);
  }
}
