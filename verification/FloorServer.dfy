/** The floor control server over UDP: the state after a datagram, the reply to its sender and the
    notices to the other sessions. Datagrams are handled one at a time, so each is one step. */
module FloorServer {
  import opened Wrappers
  import opened Octets
  import opened Tlv
  import opened Messages
  import opened Grouped
  import opened FloorState
  import opened Refusals

  type Addr = string

  const PRIORITY_NORMAL: u16 := 512

  const SUPPORTED_PRIMITIVES: seq<u8> := [1, 2, 4, 8, 11, 12, 13, 16, 17]
  const SUPPORTED_ATTRIBUTES: seq<u8> := [1, 2, 3, 4, 5, 6, 7, 10, 11, 12, 13, 14, 15, 16, 17, 18, 8, 9]
  const SUPPORTED_ATTRIBUTES_TYPE: u8 := 10
  const SUPPORTED_PRIMITIVES_TYPE: u8 := 11

  datatype SessionState =
    | Disconnected | Connected | WaitFloorRequest | FloorRequested | HasFloor | FloorRefused | FloorFreed

  /** `primitives` and `attributes` are those the client has announced. */
  datatype SessionValue = SessionValue(userID: u16, conferenceID: u32, clientVersion: u8, state: SessionState,
                                       primitives: seq<u8>, attributes: seq<u8>)

  datatype Callback =
    | OnGranted(floor: u16, user: u16, requestID: u16)
    | OnReleased(floor: u16, user: u16)
    | OnDenied(floor: u16, user: u16, requestID: u16)
    | OnConnect(addr: Addr, user: u16)

  /** `ticks` counts the increments of `nextTxID`, which wraps at 32 bits; IDs are its low 16. */
  datatype State = State(floors: map<u16, Floor>, sessions: map<Addr, SessionValue>, ticks: nat,
                         callbacks: seq<Callback>)

  datatype Packet = Packet(to: Addr, msg: Msg)

  /** What the source leaves open in one step: what a lookup over the `floors` map finds, and the
      orders in which the maps of sessions and floors are walked. */
  datatype Choice = Choice(found: Option<u16>, owned: Option<u16>, order: seq<Addr>, freed: seq<(u16, seq<Addr>)>)

  // ----- messages the server sends ----------------------------------------

  function ID(ticks: nat): u16 {
    Low(ticks, 0x1_0000)
  }

  function ReplyVersion(clientVersion: u8): u8 {
    if clientVersion > 0 then clientVersion else VERSION_RFC8855
  }

  /** The stamping done by `sendUDP`. */
  function Stamp(m: Msg, version: u8): Msg {
    m.(version := version, reserved := if version != VERSION_RFC8855 then WithFlag(m.reserved, false) else m.reserved)
  }

  function Answer(primitive: u8, req: Msg, version: u8, attrs: seq<Attribute>): Msg {
    var m := NewMsg(primitive, req.conferenceID, req.transactionID, req.userID);
    Stamp(m.(reserved := WithFlag(0, true), attributes := attrs), version)
  }

  ghost function StatusReply(req: Msg, version: u8, floor: u16, requestID: u16, status: Status): Msg {
    Answer(FLOOR_REQUEST_STATUS, req, version, WithInfo([], requestID, Code(status), floor))
  }

  function ErrorReply(req: Msg, version: u8, code: u8, info: string): Msg {
    Answer(ERROR, req, version,
           [Plain(ERROR_CODE, [code])] + (if info != "" then [Plain(ERROR_INFO, Bytes(info))] else []))
  }

  function Refused(req: Msg, why: Refusal): Msg {
    ErrorReply(req, ReplyVersion(req.version), ErrorCode(why), Text(why))
  }

  ghost function Notice(conf: u32, txID: u16, version: u8, user: u16, floor: u16, requestID: u16, status: Status): Msg {
    Stamp(NewMsg(FLOOR_REQUEST_STATUS, conf, txID, user).(attributes := WithInfo([], requestID, Code(status), floor)),
          version)
  }

  function VersionAt(s: State, a: Addr): u8 {
    if a in s.sessions then ReplyVersion(s.sessions[a].clientVersion) else VERSION_RFC8855
  }

  /** The one notice `broadcastFloorStatusUDP` sends to a session; every caller reports a release. */
  ghost function NoticeTo(to: Addr, version: u8, conf: u32, ticks: nat, user: u16, floor: u16,
                          requestID: u16): seq<Packet> {
    [Packet(to, Notice(conf, ID(ticks), version, user, floor, requestID, Released))]
  }

  /** The FloorRequestStatus sent to each session of `order`, one counter increment each. */
  ghost function Notices(s: State, conf: u32, order: seq<Addr>, ticks: nat, user: u16, floor: u16,
                         requestID: u16): seq<Packet> {
    if order == [] then []
    else NoticeTo(order[0], VersionAt(s, order[0]), conf, ticks + 1, user, floor, requestID)
         + Notices(s, conf, order[1..], ticks + 1, user, floor, requestID)
  }

  // ----- the state after a datagram ---------------------------------------

  function Touched(s: State, addr: Addr, m: Msg): State {
    if addr in s.sessions then s.(sessions := s.sessions[addr := s.sessions[addr].(clientVersion := m.version)]) else s
  }

  function Moved(s: State, addr: Addr, st: SessionState): State {
    if addr in s.sessions then s.(sessions := s.sessions[addr := s.sessions[addr].(state := st)]) else s
  }

  function Logged(s: State, c: Callback): State {
    s.(callbacks := s.callbacks + [c])
  }

  function PriorityOf(m: Msg): u16 {
    FirstU16(m.attributes, PRIORITY).GetOr(PRIORITY_NORMAL)
  }

  function FloorOrNew(s: State, floor: u16): Floor {
    if floor in s.floors then s.floors[floor] else NewFloor()
  }

  function WithFloor(s: State, floor: u16, f: Floor): State {
    s.(floors := s.floors[floor := f])
  }

  /** The session after a Hello: lists that are not announced stay as they were. */
  function Greeted(s: State, addr: Addr, m: Msg): SessionValue {
    var (primitives, attributes) :=
      if addr in s.sessions then (s.sessions[addr].primitives, s.sessions[addr].attributes) else ([], []);
    SessionValue(m.userID, m.conferenceID, m.version, WaitFloorRequest,
                 Announced(m, SUPPORTED_PRIMITIVES_TYPE, primitives),
                 Announced(m, SUPPORTED_ATTRIBUTES_TYPE, attributes))
  }

  function Announced(m: Msg, typ: u8, before: seq<u8>): seq<u8> {
    match First(m.attributes, typ)
    case Some(a) => a.value
    case None => before
  }

  function HelloState(s: State, addr: Addr, m: Msg): State {
    var after := s.(sessions := s.sessions[addr := Greeted(s, addr, m)]);
    if addr in s.sessions then after else Logged(after, OnConnect(addr, m.userID))
  }

  /** The floor a FloorRequest leaves behind when the request is accepted. */
  function Decided(pending: Floor, grant: bool): Floor {
    if grant then pending.Grant().GetOr(pending) else pending.Deny().GetOr(pending)
  }

  function RequestState(s: State, addr: Addr, m: Msg, grant: bool): State {
    match FloorIDOf(m)
    case None => s
    case Some(floor) =>
      var requestID := ID(s.ticks + 1);
      var counted := s.(ticks := s.ticks + 1);
      match FloorOrNew(s, floor).Request(m.userID, requestID, PriorityOf(m))
      case None => Logged(WithFloor(counted, floor, FloorOrNew(s, floor)), OnDenied(floor, m.userID, requestID))
      case Some(pending) =>
        Logged(Moved(WithFloor(counted, floor, Decided(pending, grant)), addr,
                     if grant then HasFloor else FloorRefused),
               if grant then OnGranted(floor, m.userID, requestID) else OnDenied(floor, m.userID, requestID))
  }

  /** The floor a FloorRelease is about, or why there is none. */
  function Target(s: State, m: Msg, ch: Choice): Result<u16, Refusal> {
    match FloorIDOf(m)
    case Some(floor) => if floor in s.floors then Success(floor) else Failure(NoSuchFloor(floor))
    case None =>
      match FloorRequestIDOf(m)
      case None => Failure(NoRequestID)
      case Some(requestID) =>
        if ch.found.Some? then Success(ch.found.value)
        else if ch.owned.Some? then Success(ch.owned.value)
        else Failure(NoSuchRequest(requestID))
  }

  /** The floor a FloorRelease frees, or why it frees none. */
  function Freeable(s: State, m: Msg, ch: Choice): Result<u16, Refusal> {
    match Target(s, m, ch)
    case Failure(why) => Failure(why)
    case Success(floor) =>
      var f := FloorOrNew(s, floor);
      if f.Release(m.userID).Some? then Success(floor) else Failure(ReleaseRefused(NotOwner(m.userID, floor, f.owner)))
  }

  function FreedState(s: State, floor: u16, user: u16, notices: nat): State {
    Logged(WithFloor(s.(ticks := s.ticks + notices), floor, NewFloor()), OnReleased(floor, user))
  }

  function ReleaseState(s: State, addr: Addr, m: Msg, ch: Choice): State {
    match Freeable(s, m, ch)
    case Failure(_) => s
    case Success(floor) => Moved(FreedState(s, floor, m.userID, |ch.order|), addr, FloorFreed)
  }

  /** The floors of a Goodbye, released one after another. */
  function GoodbyeState(s: State, user: u16, freed: seq<(u16, seq<Addr>)>): State
    decreases freed
  {
    if freed == [] then s
    else if FloorOrNew(s, freed[0].0).Release(user).None? then GoodbyeState(s, user, freed[1..])
    else GoodbyeState(FreedState(s, freed[0].0, user, |freed[0].1|), user, freed[1..])
  }

  /** `handleUDPMessage`: acknowledgements, errors and unknown primitives only touch the session. */
  function StateAfter(s: State, addr: Addr, m: Msg, grant: bool, ch: Choice): State {
    var t := Touched(s, addr, m);
    if m.primitive == HELLO then HelloState(t, addr, m)
    else if m.primitive == FLOOR_REQUEST then RequestState(t, addr, m, grant)
    else if m.primitive == FLOOR_RELEASE then ReleaseState(t, addr, m, ch)
    else if m.primitive == GOODBYE then GoodbyeState(t, m.userID, ch.freed)
    else t
  }

  // ----- replies and notices ----------------------------------------------

  function HelloReply(m: Msg): Msg {
    Answer(HELLO_ACK, m, ReplyVersion(m.version),
           [Plain(SUPPORTED_PRIMITIVES_TYPE, SUPPORTED_PRIMITIVES),
            Plain(SUPPORTED_ATTRIBUTES_TYPE, SUPPORTED_ATTRIBUTES)])
  }

  ghost function RequestReply(s: State, m: Msg, grant: bool): Msg {
    match FloorIDOf(m)
    case None => Refused(m, NoFloorID)
    case Some(floor) =>
      var f := FloorOrNew(s, floor);
      if f.Request(m.userID, ID(s.ticks + 1), PriorityOf(m)).None?
      then Refused(m, RequestRefused(f.NotRequestable(floor)))
      else StatusReply(m, ReplyVersion(m.version), floor, ID(s.ticks + 1), if grant then Granted else Denied)
  }

  ghost function ReleaseReply(s: State, m: Msg, ch: Choice): Msg {
    match Freeable(s, m, ch)
    case Failure(why) => Refused(m, why)
    case Success(floor) => StatusReply(m, ReplyVersion(m.version), floor, FloorRequestIDOf(m).GetOr(0), Released)
  }

  ghost function FloorReply(req: Msg, floor: u16, f: Floor): Msg {
    Answer(FLOOR_STATUS, req, ReplyVersion(req.version),
           [Plain(FLOOR_ID, PutU16(floor)), Plain(FLOOR_REQUEST_ID, PutU16(f.requestID)),
            Plain(REQUEST_STATUS, [Code(f.status), 0])])
  }

  ghost function QueryReply(s: State, m: Msg): Msg {
    match FloorIDOf(m)
    case None => Refused(m, NothingQueried)
    case Some(floor) =>
      if floor in s.floors then FloorReply(m, floor, s.floors[floor]) else Refused(m, NoSuchFloor(floor))
  }

  ghost function Reply(s: State, addr: Addr, m: Msg, grant: bool, ch: Choice): Option<Msg> {
    var t := Touched(s, addr, m);
    if m.primitive == HELLO then Some(HelloReply(m))
    else if m.primitive == FLOOR_REQUEST then Some(RequestReply(t, m, grant))
    else if m.primitive == FLOOR_RELEASE then Some(ReleaseReply(t, m, ch))
    else if m.primitive == FLOOR_QUERY then Some(QueryReply(t, m))
    else None
  }

  ghost function ReleaseNotices(s: State, m: Msg, conf: u32, ch: Choice): seq<Packet> {
    match Freeable(s, m, ch)
    case Failure(_) => []
    case Success(floor) => Notices(s, conf, ch.order, s.ticks, m.userID, floor, FloorRequestIDOf(m).GetOr(0))
  }

  /** The request ID is read after the release has cleared it. */
  ghost function GoodbyeNotices(s: State, conf: u32, user: u16, freed: seq<(u16, seq<Addr>)>): seq<Packet>
    decreases freed
  {
    if freed == [] then []
    else if FloorOrNew(s, freed[0].0).Release(user).None? then GoodbyeNotices(s, conf, user, freed[1..])
    else Notices(s, conf, freed[0].1, s.ticks, user, freed[0].0, 0)
         + GoodbyeNotices(FreedState(s, freed[0].0, user, |freed[0].1|), conf, user, freed[1..])
  }

  ghost function NoticesAfter(s: State, addr: Addr, m: Msg, conf: u32, ch: Choice): seq<Packet> {
    var t := Touched(s, addr, m);
    if m.primitive == FLOOR_RELEASE then ReleaseNotices(t, m, conf, ch)
    else if m.primitive == GOODBYE then GoodbyeNotices(t, conf, m.userID, ch.freed)
    else []
  }

  // ----- legal choices ----------------------------------------------------

  /** `order` walks the set `all`, each element once. */
  ghost predicate Walks<T(!new)>(order: seq<T>, all: set<T>) {
    && (forall i, j :: 0 <= i < j < |order| ==> order[i] != order[j])
    && (forall x :: x in order <==> x in all)
  }

  ghost predicate LegalFound(s: State, requestID: u16, found: Option<u16>) {
    match found
    case Some(k) => k in s.floors && s.floors[k].requestID == requestID
    case None => forall k <- s.floors :: s.floors[k].requestID != requestID
  }

  ghost predicate LegalOwned(s: State, user: u16, owned: Option<u16>) {
    match owned
    case Some(k) => k in s.floors && !s.floors[k].status.Released? && s.floors[k].owner == user
    case None => forall k <- s.floors :: s.floors[k].status.Released? || s.floors[k].owner != user
  }

  ghost predicate LegalRelease(s: State, addr: Addr, m: Msg, ch: Choice) {
    && (Freeable(s, m, ch).Success? ==> Walks(ch.order, s.sessions.Keys - {addr}))
    && (FloorIDOf(m).None? && FloorRequestIDOf(m).Some? ==>
          && LegalFound(s, FloorRequestIDOf(m).value, ch.found)
          && (ch.found.None? ==> LegalOwned(s, m.userID, ch.owned)))
  }

  function Owned(s: State, user: u16): set<u16> {
    set k | k in s.floors && s.floors[k].owner == user
  }

  function FloorsOf(freed: seq<(u16, seq<Addr>)>): (r: seq<u16>)
    ensures |r| == |freed|
    ensures forall i :: 0 <= i < |freed| ==> r[i] == freed[i].0
  {
    if freed == [] then [] else [freed[0].0] + FloorsOf(freed[1..])
  }

  ghost predicate LegalOrders(freed: seq<(u16, seq<Addr>)>, others: set<Addr>) {
    forall i :: 0 <= i < |freed| ==> Walks(freed[i].1, others)
  }

  ghost predicate LegalGoodbye(s: State, addr: Addr, m: Msg, ch: Choice) {
    Walks(FloorsOf(ch.freed), Owned(s, m.userID)) && LegalOrders(ch.freed, s.sessions.Keys - {addr})
  }

  ghost predicate Legal(s: State, addr: Addr, m: Msg, ch: Choice) {
    && (m.primitive == FLOOR_RELEASE ==> LegalRelease(Touched(s, addr, m), addr, m, ch))
    && (m.primitive == GOODBYE ==> LegalGoodbye(Touched(s, addr, m), addr, m, ch))
  }
}
