/** FLOOR-REQUEST-INFORMATION attributes as other implementations may send them: any number of parts,
    in any order. */
module InfoParts {
  import opened Wrappers
  import opened Octets
  import opened Tlv
  import opened Messages
  import opened Grouped

  datatype Part =
    | Overall(requestID: u16, status: u8, position: u8)
    | OnFloor(floorID: u16, status: u8, position: u8)
    | OnFloorOnly(floorID: u16)
    | ForUser(userID: u16)
    | ByUser(userID: u16)
    | WithPriority(priority: u16)

  ghost function SpecOf(p: Part): Spec {
    match p
    case Overall(id, status, position) =>
      Spec(OVERALL_REQUEST_STATUS, false, PutU16(id) + Wire(REQUEST_STATUS, false, [status, position]))
    case OnFloor(id, status, position) =>
      Spec(FLOOR_REQUEST_STATUS_INFO, false, PutU16(id) + Wire(REQUEST_STATUS, false, [status, position]))
    case OnFloorOnly(id) => Spec(FLOOR_REQUEST_STATUS_INFO, false, PutU16(id))
    case ForUser(id) => Spec(BENEFICIARY_INFO, false, PutU16(id))
    case ByUser(id) => Spec(REQUESTED_BY_INFO, false, PutU16(id))
    case WithPriority(n) => Spec(PRIORITY, false, PutU16(n))
  }

  ghost function Specs(parts: seq<Part>): (r: seq<Spec>)
    ensures |r| == |parts| && forall i :: 0 <= i < |r| ==> r[i] == SpecOf(parts[i])
  {
    if parts == [] then [] else [SpecOf(parts[0])] + Specs(parts[1..])
  }

  // ----- what the parts say ------------------------------------------------

  function Floors(parts: seq<Part>): seq<FloorRequestStatusInfo> {
    if parts == [] then []
    else
      (match parts[0]
       case OnFloor(id, status, position) => [FloorRequestStatusInfo(id, status, position, true)]
       case OnFloorOnly(id) => [FloorRequestStatusInfo(id, 0, 0, false)]
       case _ => []) + Floors(parts[1..])
  }

  datatype Kind = Status | Floor | Beneficiary | Requester | Priority

  function KindOf(p: Part): Kind {
    match p
    case Overall(_, _, _) => Status
    case OnFloor(_, _, _) => Floor
    case OnFloorOnly(_) => Floor
    case ForUser(_) => Beneficiary
    case ByUser(_) => Requester
    case WithPriority(_) => Priority
  }

  /** The last of the parts of that kind. */
  function Last(parts: seq<Part>, kind: Kind): (r: Option<Part>)
    ensures r.Some? ==> KindOf(r.value) == kind
  {
    if parts == [] then None
    else
      var later := Last(parts[1..], kind);
      if later.Some? then later else if KindOf(parts[0]) == kind then Some(parts[0]) else None
  }

  /** The record holds what the parts say, and keeps what `before` held where they say nothing. */
  predicate Says(before: FloorRequestInfo, r: FloorRequestInfo, parts: seq<Part>) {
    && r.floorRequestID == before.floorRequestID && r.floors == before.floors + Floors(parts)
    && (match Last(parts, Status)
        case None => r.hasOverall == before.hasOverall && r.overallStatus == before.overallStatus
                     && r.queuePosition == before.queuePosition
        case Some(p) => p.Overall? && r.hasOverall && r.overallStatus == p.status && r.queuePosition == p.position)
    && (match Last(parts, Beneficiary)
        case None => r.hasBeneficiary == before.hasBeneficiary && r.beneficiaryID == before.beneficiaryID
        case Some(p) => p.ForUser? && r.hasBeneficiary && r.beneficiaryID == p.userID)
    && (match Last(parts, Requester)
        case None => r.hasRequestedBy == before.hasRequestedBy && r.requestedByID == before.requestedByID
        case Some(p) => p.ByUser? && r.hasRequestedBy && r.requestedByID == p.userID)
    && (match Last(parts, Priority)
        case None => r.hasPriority == before.hasPriority && r.priority == before.priority
        case Some(p) => p.WithPriority? && r.hasPriority && r.priority == p.priority)
  }

  // ----- reading them back -------------------------------------------------

  lemma StatusRead(id: u16, status: u8, position: u8)
    ensures var value := PutU16(id) + Wire(REQUEST_STATUS, false, [status, position]);
            && |value| == 6 && GetU16(value[..2]) == id && FindRequestStatus(value[2..]) == Some((status, position))
  {
    var leaf := [Spec(REQUEST_STATUS, false, [status, position])];
    var wire := Wire(REQUEST_STATUS, false, [status, position]);
    var value := PutU16(id) + wire;
    assert value[..2] == PutU16(id);
    assert value[2..] == wire == Children(leaf);
    TlvsOfChildren(leaf);
  }

  lemma IDRead(id: u16)
    ensures PutU16(id)[..2] == PutU16(id) && PutU16(id)[2..] == [] && FindRequestStatus([]) == None
  {
  }

  /** One part, read into any record. */
  lemma PartRead(info: FloorRequestInfo, p: Part)
    ensures var s := SpecOf(p); Says(info, Absorb(info, Plain(s.typ, s.value)), [p])
  {
    hide FindRequestStatus, Wire;
    OnePart(p, []);
    match p
    case Overall(id, status, position) => StatusRead(id, status, position);
    case OnFloor(id, status, position) => StatusRead(id, status, position);
    case OnFloorOnly(id) => IDRead(id);
    case ForUser(id) => IDRead(id);
    case ByUser(id) => IDRead(id);
    case WithPriority(n) => IDRead(n);
  }

  lemma OnePart(p: Part, rest: seq<Part>)
    ensures Floors([p] + rest) == Floors([p]) + Floors(rest)
    ensures p.OnFloor? ==> Floors([p]) == [FloorRequestStatusInfo(p.floorID, p.status, p.position, true)]
    ensures p.OnFloorOnly? ==> Floors([p]) == [FloorRequestStatusInfo(p.floorID, 0, 0, false)]
    ensures !p.OnFloor? && !p.OnFloorOnly? ==> Floors([p]) == []
    ensures forall kind :: Last([p], kind) == if KindOf(p) == kind then Some(p) else None
    ensures forall kind :: Last([p] + rest, kind) == if Last(rest, kind).Some? then Last(rest, kind)
              else Last([p], kind)
  {
    assert [p][1..] == [] && ([p] + rest)[1..] == rest;
    assert Floors([p]) + [] == Floors([p]);
  }

  lemma SaysMore(a: FloorRequestInfo, b: FloorRequestInfo, c: FloorRequestInfo, p: Part, rest: seq<Part>)
    requires Says(a, b, [p]) && Says(b, c, rest)
    ensures Says(a, c, [p] + rest)
  {
    hide Last, Floors;
    OnePart(p, rest);
    assert a.floors + Floors([p]) + Floors(rest) == a.floors + (Floors([p]) + Floors(rest));
  }

  lemma {:induction false} PartsAbsorbed(info: FloorRequestInfo, parts: seq<Part>)
    ensures Says(info, AbsorbAll(info, Read(Specs(parts))), parts)
    decreases parts
  {
    hide Absorb, Says, SpecOf;
    if parts == [] {
      NothingSaid(info);
    } else {
      var s := SpecOf(parts[0]);
      var next := Absorb(info, Plain(s.typ, s.value));
      assert Specs(parts)[1..] == Specs(parts[1..]);
      assert Read(Specs(parts))[1..] == Read(Specs(parts[1..]));
      PartRead(info, parts[0]);
      PartsAbsorbed(next, parts[1..]);
      assert parts == [parts[0]] + parts[1..];
      SaysMore(info, next, AbsorbAll(next, Read(Specs(parts[1..]))), parts[0], parts[1..]);
    }
  }

  lemma NothingSaid(info: FloorRequestInfo)
    ensures Says(info, info, [])
  {
  }

  /** A FLOOR-REQUEST-INFORMATION with any parts in any order is read as what they say: every floor in
      order, and the last overall status with its queue position, beneficiary, requester and priority. */
  lemma PartsRead(requestID: u16, parts: seq<Part>)
    ensures var r := ParseInfo(PutU16(requestID) + Children(Specs(parts)));
            r.Some? && Says(Blank(requestID), r.value, parts)
  {
    hide Says, AbsorbAll;
    var value := PutU16(requestID) + Children(Specs(parts));
    assert value[..2] == PutU16(requestID) && value[2..] == Children(Specs(parts));
    SpecsFit(parts);
    TlvsOfChildren(Specs(parts));
    PartsAbsorbed(Blank(requestID), parts);
  }

  lemma SpecsFit(parts: seq<Part>)
    ensures forall i :: 0 <= i < |parts| ==> Specs(parts)[i].typ < 128 && |Specs(parts)[i].value| <= 253
  {
    forall i | 0 <= i < |parts| ensures Specs(parts)[i].typ < 128 && |Specs(parts)[i].value| <= 253 {
      PartFits(parts[i]);
    }
  }

  lemma PartFits(p: Part)
    ensures SpecOf(p).typ < 128 && |SpecOf(p).value| <= 6
  {
    match p
    case Overall(id, status, position) => StatusRead(id, status, position);
    case OnFloor(id, status, position) => StatusRead(id, status, position);
    case _ =>
  }

  // ----- what the accessors find -------------------------------------------

  /** `i` is the first attribute of the type. */
  predicate FirstAt(attrs: seq<Attribute>, typ: u8, i: nat) {
    i < |attrs| && attrs[i].typ == typ && forall j :: 0 <= j < i ==> attrs[j].typ != typ
  }

  lemma {:induction false} FirstIs(attrs: seq<Attribute>, typ: u8, i: nat)
    ensures FirstAt(attrs, typ, i) ==> First(attrs, typ) == Some(attrs[i])
    ensures (forall j :: 0 <= j < |attrs| ==> attrs[j].typ != typ) ==> First(attrs, typ) == None
    decreases attrs
  {
    if attrs != [] {
      FirstIs(attrs[1..], typ, if i == 0 then 0 else i - 1);
      assert forall j :: 0 < j < |attrs| ==> attrs[j] == attrs[1..][j - 1];
    }
  }

  /** The message has an attribute of the type, and the first one has two octets or more. */
  ghost predicate HasDirect(m: Msg, typ: u8) {
    exists i :: DirectAt(m, typ, i)
  }

  predicate DirectAt(m: Msg, typ: u8, i: nat) {
    FirstAt(m.attributes, typ, i) && |m.attributes[i].value| >= 2
  }

  lemma {:induction false} FirstExists(attrs: seq<Attribute>, typ: u8) returns (i: nat)
    requires First(attrs, typ).Some?
    ensures FirstAt(attrs, typ, i)
  {
    if attrs[0].typ == typ {
      i := 0;
    } else {
      var k := FirstExists(attrs[1..], typ);
      i := k + 1;
      assert forall j :: 0 < j < i ==> attrs[j] == attrs[1..][j - 1];
    }
  }

  lemma DirectMeans(m: Msg, typ: u8)
    ensures HasDirect(m, typ) <==> First(m.attributes, typ).Some? && |First(m.attributes, typ).value.value| >= 2
    ensures forall i: nat :: DirectAt(m, typ, i) ==> First(m.attributes, typ) == Some(m.attributes[i])
  {
    forall i: nat | DirectAt(m, typ, i) ensures First(m.attributes, typ) == Some(m.attributes[i]) {
      FirstIs(m.attributes, typ, i);
    }
    if First(m.attributes, typ).Some? {
      var i := FirstExists(m.attributes, typ);
      FirstIs(m.attributes, typ, i);
      if |m.attributes[i].value| >= 2 {
        assert DirectAt(m, typ, i);
      }
    }
  }

  /** The first attribute of its own wins. */
  lemma IDsGiven(m: Msg, i: nat)
    ensures DirectAt(m, FLOOR_ID, i) ==>
              FloorIDOf(m) == Some((m.attributes[i].value[0] as int * 0x100 + m.attributes[i].value[1]) as u16)
    ensures DirectAt(m, FLOOR_REQUEST_ID, i) ==>
              FloorRequestIDOf(m) == Some((m.attributes[i].value[0] as int * 0x100 + m.attributes[i].value[1]) as u16)
  {
    hide First, Infos, HasDirect;
    DirectMeans(m, FLOOR_ID);
    DirectMeans(m, FLOOR_REQUEST_ID);
  }

  /** Without one, or when it is too short, the floor is that of the first information with a floor, and the
      request that of the first information. */
  lemma IDsFound(m: Msg, i: nat)
    ensures !HasDirect(m, FLOOR_ID) ==>
              var infos := Infos(m.attributes);
              && (FloorIDOf(m) == None <==> forall j :: 0 <= j < |infos| ==> infos[j].floors == [])
              && (i < |infos| && infos[i].floors != [] && (forall j :: 0 <= j < i ==> infos[j].floors == []) ==>
                    FloorIDOf(m) == Some(infos[i].floors[0].floorID))
    ensures !HasDirect(m, FLOOR_REQUEST_ID) ==>
              FloorRequestIDOf(m) == if Infos(m.attributes) == [] then None
                                     else Some(Infos(m.attributes)[0].floorRequestID)
  {
    hide First, Infos, HasDirect, DirectAt, FirstFloor;
    DirectMeans(m, FLOOR_ID);
    DirectMeans(m, FLOOR_REQUEST_ID);
    FirstFloorIs(Infos(m.attributes), i);
  }

  lemma {:induction false} FirstFloorIs(infos: seq<FloorRequestInfo>, i: nat)
    ensures FirstFloor(infos) == None <==> forall j :: 0 <= j < |infos| ==> infos[j].floors == []
    ensures i < |infos| && infos[i].floors != [] && (forall j :: 0 <= j < i ==> infos[j].floors == []) ==>
              FirstFloor(infos) == Some(infos[i].floors[0].floorID)
    decreases infos
  {
    if infos != [] {
      FirstFloorIs(infos[1..], if i == 0 then 0 else i - 1);
      assert forall j :: 0 < j < |infos| ==> infos[j] == infos[1..][j - 1];
    }
  }

  /** The overall status, or that of the first floor with one. */
  predicate Gives(info: FloorRequestInfo, status: u8) {
    if info.hasOverall then info.overallStatus == status
    else
      exists k :: 0 <= k < |info.floors| && info.floors[k].hasStatus && info.floors[k].status == status
                  && forall j :: 0 <= j < k ==> !info.floors[j].hasStatus
  }

  predicate GivesNone(info: FloorRequestInfo) {
    !info.hasOverall && forall j :: 0 <= j < |info.floors| ==> !info.floors[j].hasStatus
  }

  lemma {:induction false} FirstKnownIs(floors: seq<FloorRequestStatusInfo>)
    ensures FirstKnown(floors) == None <==> forall j :: 0 <= j < |floors| ==> !floors[j].hasStatus
    ensures FirstKnown(floors).Some? ==>
              exists k :: 0 <= k < |floors| && floors[k].hasStatus && floors[k].status == FirstKnown(floors).value
                          && forall j :: 0 <= j < k ==> !floors[j].hasStatus
    decreases floors
  {
    if floors != [] {
      var rest := floors[1..];
      FirstKnownIs(rest);
      assert forall j :: 0 < j < |floors| ==> floors[j] == rest[j - 1];
      if floors[0].hasStatus {
        assert floors[0].status == FirstKnown(floors).value;
      } else if FirstKnown(rest).Some? {
        var k :| 0 <= k < |rest| && rest[k].hasStatus && rest[k].status == FirstKnown(rest).value
                 && forall j :: 0 <= j < k ==> !rest[j].hasStatus;
        assert floors[k + 1].hasStatus && forall j :: 0 <= j < k + 1 ==> !floors[j].hasStatus;
      }
    }
  }

  lemma StatusGiven(info: FloorRequestInfo)
    ensures StatusOf(info) == None <==> GivesNone(info)
    ensures StatusOf(info).Some? ==> Gives(info, StatusOf(info).value)
  {
    FirstKnownIs(info.floors);
  }

  lemma {:induction false} FirstStatusIs(infos: seq<FloorRequestInfo>, i: nat)
    ensures FirstInfoStatus(infos) == None <==> forall j :: 0 <= j < |infos| ==> GivesNone(infos[j])
    ensures i < |infos| && !GivesNone(infos[i]) && (forall j :: 0 <= j < i ==> GivesNone(infos[j])) ==>
              && FirstInfoStatus(infos).Some? && Gives(infos[i], FirstInfoStatus(infos).value.0)
              && FirstInfoStatus(infos).value.1 == infos[i].queuePosition
    decreases infos
  {
    hide StatusOf, Gives, GivesNone;
    if infos != [] {
      StatusGiven(infos[0]);
      FirstStatusIs(infos[1..], if i == 0 then 0 else i - 1);
      assert forall j :: 0 < j < |infos| ==> infos[j] == infos[1..][j - 1];
    }
  }

  /** A REQUEST-STATUS of its own wins, with its queue position. */
  lemma StatusOwn(m: Msg, i: nat)
    ensures DirectAt(m, REQUEST_STATUS, i) ==>
              RequestStatusOf(m) == Some((m.attributes[i].value[0], m.attributes[i].value[1]))
  {
    hide First, Infos, HasDirect;
    DirectMeans(m, REQUEST_STATUS);
  }

  /** Without one the first information that gives a status does, with the queue position of that one. */
  lemma StatusFound(m: Msg, i: nat)
    ensures !HasDirect(m, REQUEST_STATUS) ==>
              var infos := Infos(m.attributes);
              && (RequestStatusOf(m) == None <==> forall j :: 0 <= j < |infos| ==> GivesNone(infos[j]))
              && (i < |infos| && !GivesNone(infos[i]) && (forall j :: 0 <= j < i ==> GivesNone(infos[j])) ==>
                    && RequestStatusOf(m).Some? && Gives(infos[i], RequestStatusOf(m).value.0)
                    && RequestStatusOf(m).value.1 == infos[i].queuePosition)
  {
    hide First, Infos, HasDirect, DirectAt, Gives, GivesNone, FirstInfoStatus;
    DirectMeans(m, REQUEST_STATUS);
    FirstStatusIs(Infos(m.attributes), i);
  }
}
