/** The server object and its UDP handlers, proved against the transition system of FloorServer. */
module UdpServer {
  import opened Wrappers
  import opened Octets
  import opened Tlv
  import opened Messages
  import opened Grouped
  import opened Codec
  import opened FloorState
  import opened Refusals
  import opened FloorServer
  import UdpClient

  class Session {
    const addr: Addr
    var userID: u16
    var conferenceID: u32
    var clientVersion: u8
    var state: SessionState
    var supportedPrimitives: seq<u8>
    var supportedAttributes: seq<u8>

    function Value(): SessionValue
      reads this
    {
      SessionValue(userID, conferenceID, clientVersion, state, supportedPrimitives, supportedAttributes)
    }

    constructor (addr: Addr, conferenceID: u32)
      ensures this.addr == addr && Value() == SessionValue(0, conferenceID, 0, Connected, [], [])
    {
      this.addr := addr;
      this.userID, this.conferenceID, this.clientVersion, this.state := 0, conferenceID, 0, Connected;
      supportedPrimitives, supportedAttributes := [], [];
    }

    function ProtocolVersion(): u8
      reads this
    {
      if clientVersion > 0 then clientVersion else VERSION_RFC8855
    }
  }

  lemma {:induction false} LowLow(n: nat)
    ensures Low(Low(n, 0x1_0000_0000), 0x1_0000) == Low(n, 0x1_0000)
  {
    if n >= 0x1_0000_0000 {
      LowLow(n - 0x1_0000_0000);
      LowMod(n, 0x1_0000);
      LowMod(n - 0x1_0000_0000, 0x1_0000);
    }
  }

  lemma {:induction false} LowNext(n: nat, m: nat)
    requires m > 1
    ensures Low(n + 1, m) == if Low(n, m) + 1 == m then 0 else Low(n, m) + 1
  {
    if n >= m {
      LowNext(n - m, m);
    }
  }

  class Server {
    const conferenceID: u32
    var floors: map<u16, FloorStateMachine>
    var sessions: map<Addr, Session>
    var udpClients: map<Addr, UdpClient.UDPClient>
    var nextTxID: u32
    ghost var ticks: nat
    var callbacks: seq<Callback>
    var outbox: seq<Packet>

    ghost predicate Valid()
      reads this`floors, this`sessions, this`nextTxID, this`ticks
    {
      && (forall k <- floors :: floors[k].floorID == k)
      && (forall a <- sessions :: sessions[a].addr == a)
      && nextTxID == Low(ticks, 0x1_0000_0000)
    }

    ghost function View(): (v: State)
      reads this`floors, this`sessions, this`ticks, this`callbacks, floors.Values, sessions.Values
      ensures v.floors.Keys == floors.Keys && v.sessions.Keys == sessions.Keys && v.ticks == ticks
    {
      State(FloorValues(), SessionValues(), ticks, callbacks)
    }

    ghost function FloorValues(): map<u16, Floor>
      reads this`floors, floors.Values
    {
      map k | k in floors :: floors[k].Value()
    }

    ghost function SessionValues(): map<Addr, SessionValue>
      reads this`sessions, sessions.Values
    {
      map a | a in sessions :: sessions[a].Value()
    }

    constructor (conferenceID: u32)
      ensures Valid() && View() == State(map[], map[], 0, []) && outbox == [] && udpClients == map[]
    {
      this.conferenceID := conferenceID;
      udpClients := map[];
      floors, sessions, nextTxID, ticks, callbacks, outbox := map[], map[], 0, 0, [], [];
    }

    /** `sess` is the session of its address, if that address has one. */
    ghost predicate Attached(sess: Session)
      reads this`sessions
    {
      sess.addr in sessions ==> sessions[sess.addr] == sess
    }

    /** `uint16(s.nextTxID.Add(1))` */
    method NextTxID() returns (id: u16)
      requires Valid()
      modifies this`nextTxID, this`ticks
      ensures Valid() && ticks == old(ticks) + 1 && id == ID(ticks) && View() == Counted(old(View()))
    {
      LowNext(ticks, 0x1_0000_0000);
      nextTxID := if nextTxID == 0xFFFF_FFFF then 0 else nextTxID + 1;
      ticks := ticks + 1;
      LowLow(ticks);
      LowMod(nextTxID, 0x1_0000);
      id := nextTxID % 0x1_0000;
    }

    method CreateFloor(floorID: u16) returns (floor: FloorStateMachine)
      requires Valid()
      modifies this`floors
      ensures Valid() && floorID in floors && floors[floorID] == floor
                && floor.Value() == FloorOrNew(old(View()), floorID)
      ensures floorID in old(floors) ==> floors == old(floors)
      ensures floorID !in old(floors) ==> fresh(floor) && floors == old(floors)[floorID := floor]
      ensures fresh(floors.Values - old(floors.Values))
      ensures View() == WithFloor(old(View()), floorID, FloorOrNew(old(View()), floorID))
    {
      if floorID in floors {
        floor := floors[floorID];
        assert FloorValues() == old(FloorValues())[floorID := floor.Value()];
        return;
      }
      floor := new FloorStateMachine(floorID);
      floors := floors[floorID := floor];
      assert FloorValues() == old(FloorValues())[floorID := NewFloor()];
    }

    method GetFloorByRequestID(requestID: u16) returns (found: Option<FloorStateMachine>)
      requires Valid()
      ensures found.Some? ==> found.value.floorID in floors && floors[found.value.floorID] == found.value
      ensures LegalFound(View(), requestID, if found.Some? then Some(found.value.floorID) else None)
    {
      var todo := floors.Keys;
      while todo != {}
        invariant todo <= floors.Keys
        invariant forall k <- floors :: k !in todo ==> floors[k].floorRequestID != requestID
      {
        var k :| k in todo;
        if floors[k].floorRequestID == requestID {
          return Some(floors[k]);
        }
        todo := todo - {k};
      }
      found := None;
    }

    method FloorOwnedBy(userID: u16) returns (owned: Option<FloorStateMachine>)
      requires Valid()
      ensures owned.Some? ==> owned.value.floorID in floors && floors[owned.value.floorID] == owned.value
      ensures LegalOwned(View(), userID, if owned.Some? then Some(owned.value.floorID) else None)
    {
      var todo := floors.Keys;
      while todo != {}
        invariant todo <= floors.Keys
        invariant forall k <- floors :: k !in todo ==>
                    floors[k].currentState.Released? || floors[k].ownerUserID != userID
      {
        var k :| k in todo;
        if !floors[k].IsAvailable() && floors[k].ownerUserID == userID {
          return Some(floors[k]);
        }
        todo := todo - {k};
      }
      owned := None;
    }

    method Log(c: Callback)
      requires Valid()
      modifies this`callbacks
      ensures Valid() && View() == Logged(old(View()), c)
    {
      callbacks := callbacks + [c];
    }

    method SetState(sess: Session, state: SessionState)
      requires Valid() && Attached(sess)
      modifies sess`state
      ensures View() == Moved(old(View()), sess.addr, state)
      ensures sess.clientVersion == old(sess.clientVersion)
    {
      sess.state := state;
      assert View().sessions == Moved(old(View()), sess.addr, state).sessions;
    }

    // ----- sending --------------------------------------------------------

    method SendUDP(sess: Session, msg: Message)
      modifies this`outbox, msg`version, msg`reserved
      ensures outbox == old(outbox) + [Packet(sess.addr, Stamp(old(msg.Value()), sess.ProtocolVersion()))]
    {
      msg.version := sess.ProtocolVersion();
      if msg.version != VERSION_RFC8855 {
        msg.SetResponse(false);
      }
      outbox := outbox + [Packet(sess.addr, msg.Value())];
    }

    method NewAnswer(primitive: u8, req: Msg) returns (response: Message)
      ensures fresh(response)
      ensures response.Value()
                == NewMsg(primitive, req.conferenceID, req.transactionID, req.userID).(reserved := WithFlag(0, true))
    {
      response := new Message(primitive, req.conferenceID, req.transactionID, req.userID);
      response.SetResponse(true);
    }

    method SendUDPFloorStatusResponse(sess: Session, req: Msg, floorID: u16, requestID: u16, status: Status)
      modifies this`outbox
      ensures outbox == old(outbox)
                + [Packet(sess.addr, StatusReply(req, sess.ProtocolVersion(), floorID, requestID, status))]
    {
      var response := NewAnswer(FLOOR_REQUEST_STATUS, req);
      response.AddFloorRequestInformation(requestID, Code(status), floorID);
      SendUDP(sess, response);
    }

    method SendUDPError(sess: Session, req: Msg, errorCode: u8, errorInfo: string)
      modifies this`outbox
      ensures outbox == old(outbox) + [Packet(sess.addr, ErrorReply(req, sess.ProtocolVersion(), errorCode, errorInfo))]
    {
      var response := NewAnswer(ERROR, req);
      response.AddErrorCode(errorCode);
      if errorInfo != "" {
        response.AddErrorInfo(errorInfo);
      }
      assert response.attributes == [Plain(ERROR_CODE, [errorCode])]
                                    + (if errorInfo != "" then [Plain(ERROR_INFO, Bytes(errorInfo))] else []);
      SendUDP(sess, response);
    }

    method Refuse(sess: Session, req: Msg, why: Refusal)
      requires sess.clientVersion == req.version
      modifies this`outbox
      ensures outbox == old(outbox) + [Packet(sess.addr, Refused(req, why))]
    {
      hide ErrorReply;
      SendUDPError(sess, req, ErrorCode(why), Text(why));
    }

    method Notify(sess: Session, userID: u16, floorID: u16, requestID: u16)
      requires Valid()
      modifies this`nextTxID, this`ticks, this`outbox
      ensures Valid() && ticks == old(ticks) + 1
      ensures outbox == old(outbox)
           + NoticeTo(sess.addr, sess.ProtocolVersion(), conferenceID, old(ticks) + 1, userID, floorID, requestID)
    {
      var txID := NextTxID();
      var msg := new Message(FLOOR_REQUEST_STATUS, conferenceID, txID, userID);
      msg.AddFloorRequestInformation(requestID, Code(Released), floorID);
      SendUDP(sess, msg);
    }

    /** A snapshot of the sessions but `except`, in the order the map is walked. */
    method OtherSessions(except: Session) returns (list: seq<Session>, ghost order: seq<Addr>)
      requires Valid() && Attached(except)
      ensures Walks(order, sessions.Keys - {except.addr}) && |list| == |order|
      ensures forall i :: 0 <= i < |list| ==>
                list[i].addr == order[i] && list[i].ProtocolVersion() == VersionAt(View(), order[i])
    {
      list, order := [], [];
      var todo := sessions.Keys;
      while todo != {}
        invariant todo <= sessions.Keys && |list| == |order|
        invariant Walks(order, sessions.Keys - todo - {except.addr})
        invariant forall i :: 0 <= i < |list| ==> order[i] in sessions && sessions[order[i]] == list[i]
      {
        var a :| a in todo;
        WalkOn(order, sessions.Keys, todo, except.addr, a);
        todo := todo - {a};
        if sessions[a] != except {
          list, order := list + [sessions[a]], order + [a];
        }
      }
    }

    method BroadcastFloorStatusUDP(except: Session, userID: u16, floorID: u16, requestID: u16)
      returns (ghost order: seq<Addr>)
      requires Valid() && Attached(except)
      modifies this`nextTxID, this`ticks, this`outbox
      ensures Valid() && Walks(order, sessions.Keys - {except.addr})
      ensures ticks == old(ticks) + |order| && View() == Ticked(old(View()), |order|)
      ensures outbox == old(outbox) + Notices(old(View()), conferenceID, order, old(ticks), userID, floorID, requestID)
    {
      hide FloorValues, SessionValues, Notices, Walks, VersionAt;
      var list;
      list, order := OtherSessions(except);
      NotifyAll(list, order, View(), userID, floorID, requestID);
    }

    method NotifyAll(list: seq<Session>, ghost order: seq<Addr>, ghost s: State, userID: u16, floorID: u16,
                     requestID: u16)
      requires Valid() && |list| == |order|
      requires forall i :: 0 <= i < |list| ==>
                 list[i].addr == order[i] && list[i].ProtocolVersion() == VersionAt(s, order[i])
      modifies this`nextTxID, this`ticks, this`outbox
      ensures Valid() && ticks == old(ticks) + |order|
      ensures outbox == old(outbox) + Notices(s, conferenceID, order, old(ticks), userID, floorID, requestID)
    {
      var i := 0;
      assert order[0..] == order;
      while i < |list|
        invariant Valid() && 0 <= i <= |list| && ticks == old(ticks) + i
        invariant outbox + Notices(s, conferenceID, order[i..], ticks, userID, floorID, requestID)
               == old(outbox) + Notices(s, conferenceID, order, old(ticks), userID, floorID, requestID)
      {
        AppendTwice(outbox,
                    NoticeTo(order[i], VersionAt(s, order[i]), conferenceID, ticks + 1, userID, floorID, requestID),
                    Notices(s, conferenceID, order[i + 1..], ticks + 1, userID, floorID, requestID));
        assert order[i..][1..] == order[i + 1..];
        Notify(list[i], userID, floorID, requestID);
        i := i + 1;
      }
      AppendTwice(outbox, [], []);
    }

    // ----- the handlers ---------------------------------------------------

    method Register(sess: Session, msg: Msg)
      requires Valid() && Attached(sess)
      modifies this`sessions, sess
      ensures Valid() && Attached(sess) && sessions.Values <= old(sessions.Values) + {sess}
      ensures sess.clientVersion == old(sess.clientVersion) && sess.addr in sessions
      ensures View() == Registered(old(View()), sess.addr,
                                   old(sess.Value()).(userID := msg.userID, conferenceID := msg.conferenceID))
      ensures sess.Value() == old(sess.Value()).(userID := msg.userID, conferenceID := msg.conferenceID)
    {
      sess.conferenceID := msg.conferenceID;
      sess.userID := msg.userID;
      sessions := sessions[sess.addr := sess];
      assert SessionValues() == old(SessionValues())[sess.addr := sess.Value()];
    }

    /** The lists a Hello announces replace those the session has. */
    method SetSupported(sess: Session, msg: Msg)
      modifies sess`supportedPrimitives, sess`supportedAttributes
      ensures sess.Value() == Announcing(old(sess.Value()), msg)
    {
      var primitives := First(msg.attributes, SUPPORTED_PRIMITIVES_TYPE);
      if primitives.Some? {
        sess.supportedPrimitives := primitives.value.value;
      }
      var attributes := First(msg.attributes, SUPPORTED_ATTRIBUTES_TYPE);
      if attributes.Some? {
        sess.supportedAttributes := attributes.value.value;
      }
    }

    /** The session of a changed registered one is the only one that changed. */
    twostate lemma OneSession(sess: Session)
      requires Valid() && sess.addr in sessions && sessions[sess.addr] == sess && sessions == old(sessions)
      requires forall a <- sessions :: sessions[a] != sess ==> unchanged(sessions[a])
      ensures SessionValues() == old(SessionValues())[sess.addr := sess.Value()]
    {
    }

    method Announce(sess: Session, msg: Msg)
      requires Valid() && Attached(sess) && sess.addr in sessions
      modifies sess`supportedPrimitives, sess`supportedAttributes
      ensures View() == Registered(old(View()), sess.addr, Announcing(old(sess.Value()), msg))
    {
      hide Announcing;
      SetSupported(sess, msg);
      OneSession(sess);
    }

    method SendHelloAck(sess: Session, msg: Msg)
      requires sess.clientVersion == msg.version
      modifies this`outbox
      ensures outbox == old(outbox) + [Packet(sess.addr, HelloReply(msg))]
    {
      var response := NewAnswer(HELLO_ACK, msg);
      response.AddAttribute(SUPPORTED_PRIMITIVES_TYPE, SUPPORTED_PRIMITIVES);
      response.AddAttribute(SUPPORTED_ATTRIBUTES_TYPE, SUPPORTED_ATTRIBUTES);
      assert response.attributes == HelloReply(msg).attributes;
      SendUDP(sess, response);
    }

    method Greet(sess: Session, msg: Msg)
      requires Valid() && Attached(sess)
      modifies this`sessions, sess
      ensures Valid() && Attached(sess) && sessions.Values <= old(sessions.Values) + {sess}
      ensures sess.clientVersion == old(sess.clientVersion)
      ensures var v := old(sess.Value()).(userID := msg.userID, conferenceID := msg.conferenceID);
              View() == Registered(Registered(old(View()), sess.addr, v), sess.addr, Announcing(v, msg))
    {
      hide View, Registered, Announcing;
      Register(sess, msg);
      Announce(sess, msg);
    }

    method HandleUDPHello(sess: Session, msg: Msg)
      requires Valid() && Attached(sess) && sess.clientVersion == msg.version
      requires sess.addr !in sessions ==> sess.supportedPrimitives == sess.supportedAttributes == []
      modifies this`sessions, this`callbacks, this`outbox, sess
      ensures Valid() && Attached(sess) && sessions.Values <= old(sessions.Values) + {sess}
      ensures View() == HelloState(old(View()), sess.addr, msg)
      ensures outbox == old(outbox) + [Packet(sess.addr, HelloReply(msg))]
    {
      hide View, HelloState, Moved, Logged, Registered, HelloReply, Announcing;
      var alreadyRegistered := sess.addr in sessions;
      SessionAt(sess);
      HelloSteps(View(), sess.addr, msg, sess.Value());
      Greet(sess, msg);
      SendHelloAck(sess, msg);
      SetState(sess, WaitFloorRequest);
      if !alreadyRegistered {
        Log(OnConnect(sess.addr, msg.userID));
      }
    }

    lemma SessionAt(sess: Session)
      requires Valid() && Attached(sess)
      requires sess.addr !in sessions ==> sess.supportedPrimitives == sess.supportedAttributes == []
      ensures Continues(View(), sess.addr, sess.Value())
    {
    }

    /** `floor` is one of the server's. */
    ghost predicate Ours(floor: FloorStateMachine)
      reads this`floors
    {
      floor.floorID in floors && floors[floor.floorID] == floor
    }

    /** The floor of a changed state machine is the only one that changed. */
    twostate lemma OneFloor(floor: FloorStateMachine)
      requires Valid() && Ours(floor) && floors == old(floors)
      requires forall k <- floors :: floors[k] != floor ==> unchanged(floors[k])
      ensures FloorValues() == old(FloorValues())[floor.floorID := floor.Value()]
    {
    }

    method Ask(floor: FloorStateMachine, userID: u16, requestID: u16, priority: u16) returns (err: Option<FloorError>)
      requires Valid() && Ours(floor)
      modifies floor
      ensures err == if old(floor.Value()).Request(userID, requestID, priority).Some? then None
                     else Some(old(floor.Value()).NotRequestable(floor.floorID))
      ensures floor.Value() == old(floor.Value()).Request(userID, requestID, priority).GetOr(old(floor.Value()))
      ensures View() == WithFloor(old(View()), floor.floorID, floor.Value())
    {
      var status;
      status, err := floor.Request(userID, requestID, priority);
      OneFloor(floor);
    }

    /** The decision, taken while the floor is still Pending. */
    method Settle(floor: FloorStateMachine, shouldGrant: bool)
      requires Valid() && Ours(floor) && floor.currentState.Pending?
      modifies floor
      ensures View() == WithFloor(old(View()), floor.floorID, Decided(old(floor.Value()), shouldGrant))
    {
      var ok;
      if shouldGrant {
        ok := floor.Grant();
      } else {
        ok := floor.Deny();
      }
      assert ok;
      OneFloor(floor);
    }

    /** The decision goes in the response itself: one FloorRequestStatus per request. */
    method Decide(sess: Session, msg: Msg, floor: FloorStateMachine, requestID: u16, shouldGrant: bool)
      requires Valid() && Ours(floor) && Attached(sess) && sess.clientVersion == msg.version
                 && floor.currentState.Pending?
      modifies this`callbacks, this`outbox, sess, floor
      ensures View() == Concluded(old(View()), sess.addr, msg, floor.floorID, old(floor.Value()), requestID,
                                  shouldGrant)
      ensures outbox == old(outbox)
                + [Packet(sess.addr, StatusReply(msg, ReplyVersion(msg.version), floor.floorID, requestID,
                                                                     if shouldGrant then Granted else Denied))]
    {
      hide View, Moved, Logged, WithFloor, StatusReply;
      Settle(floor, shouldGrant);
      SendUDPFloorStatusResponse(sess, msg, floor.floorID, requestID, if shouldGrant then Granted else Denied);
      SetState(sess, if shouldGrant then HasFloor else FloorRefused);
      Log(if shouldGrant then OnGranted(floor.floorID, msg.userID, requestID)
          else OnDenied(floor.floorID, msg.userID, requestID));
    }

    method HandleUDPFloorRequest(sess: Session, msg: Msg, shouldGrant: bool)
      requires Valid() && Attached(sess) && sess.clientVersion == msg.version
      modifies this`floors, this`nextTxID, this`ticks, this`callbacks, this`outbox, sess, floors.Values
      ensures Valid() && fresh(floors.Values - old(floors.Values))
      ensures View() == RequestState(old(View()), sess.addr, msg, shouldGrant)
      ensures outbox == old(outbox) + [Packet(sess.addr, RequestReply(old(View()), msg, shouldGrant))]
    {
      var floorID := FloorIDOf(msg);
      if floorID.None? {
        Refuse(sess, msg, NoFloorID);
        return;
      }
      RequestOn(sess, msg, floorID.value, shouldGrant);
    }

    /** The floor, created if need be, and the fresh request ID it is asked with. */
    method AskFor(msg: Msg, floorID: u16) returns (floor: FloorStateMachine, requestID: u16, err: Option<FloorError>)
      requires Valid()
      modifies this`floors, this`nextTxID, this`ticks, floors.Values
      ensures Valid() && Ours(floor) && floor.floorID == floorID && requestID == ID(old(ticks) + 1)
      ensures (floor in old(floors).Values || fresh(floor)) && fresh(floors.Values - old(floors.Values))
      ensures err == if Asking(old(View()), msg, floorID).Some? then None
                     else Some(FloorOrNew(old(View()), floorID).NotRequestable(floorID))
      ensures err.None? ==> floor.Value() == Asking(old(View()), msg, floorID).value
      ensures View() == Asked(old(View()), floorID,
                              Asking(old(View()), msg, floorID).GetOr(FloorOrNew(old(View()), floorID)))
    {
      hide View, WithFloor, Counted, FloorOrNew, PriorityOf, ID;
      floor := CreateFloor(floorID);
      requestID := NextTxID();
      err := Ask(floor, msg.userID, requestID, PriorityOf(msg));
    }

    method Conclude(sess: Session, msg: Msg, floor: FloorStateMachine, requestID: u16, err: Option<FloorError>,
                    shouldGrant: bool, ghost s: State)
      requires Valid() && Ours(floor) && Attached(sess) && sess.clientVersion == msg.version
      requires FloorIDOf(msg) == Some(floor.floorID) && requestID == ID(s.ticks + 1)
      requires var asking, f := Asking(s, msg, floor.floorID), FloorOrNew(s, floor.floorID);
               && err == (if asking.Some? then None else Some(f.NotRequestable(floor.floorID)))
               && (err.None? ==> floor.Value() == asking.value) && View() == Asked(s, floor.floorID, asking.GetOr(f))
      modifies this`callbacks, this`outbox, sess, floor
      ensures View() == RequestState(s, sess.addr, msg, shouldGrant)
      ensures outbox == old(outbox) + [Packet(sess.addr, RequestReply(s, msg, shouldGrant))]
    {
      hide View, Moved, Logged, WithFloor, Asked, Asking, Concluded, Counted, StatusReply, Refused, RequestState,
           RequestReply, FloorIDOf, FloorOrNew, PriorityOf, ID, ReplyVersion, Decided;
      if err.Some? {
        RefusedSteps(s, sess.addr, msg, shouldGrant, floor.floorID);
        Refuse(sess, msg, RequestRefused(err.value));
        Log(OnDenied(floor.floorID, msg.userID, requestID));
      } else {
        AcceptedSteps(s, sess.addr, msg, shouldGrant, floor.floorID);
        Decide(sess, msg, floor, requestID, shouldGrant);
      }
    }

    method RequestOn(sess: Session, msg: Msg, floorID: u16, shouldGrant: bool)
      requires Valid() && Attached(sess) && sess.clientVersion == msg.version && FloorIDOf(msg) == Some(floorID)
      modifies this`floors, this`nextTxID, this`ticks, this`callbacks, this`outbox, sess, floors.Values
      ensures Valid() && fresh(floors.Values - old(floors.Values))
      ensures View() == RequestState(old(View()), sess.addr, msg, shouldGrant)
      ensures outbox == old(outbox) + [Packet(sess.addr, RequestReply(old(View()), msg, shouldGrant))]
    {
      hide View, Asked, Asking, RequestState, RequestReply, FloorIDOf, FloorOrNew, ID;
      ghost var s := View();
      var floor, requestID, err := AskFor(msg, floorID);
      Conclude(sess, msg, floor, requestID, err, shouldGrant, s);
    }

    /** The floor a FloorRelease is about, or why there is none, and what the lookups found. */
    method FindTarget(msg: Msg) returns (r: Result<FloorStateMachine, Refusal>, ghost ch: Choice)
      requires Valid()
      ensures match Target(View(), msg, ch)
              case Success(k) => r.Success? && Ours(r.value) && r.value.floorID == k
              case Failure(why) => r == Failure(why)
      ensures FloorIDOf(msg).None? && FloorRequestIDOf(msg).Some? ==>
                && LegalFound(View(), FloorRequestIDOf(msg).value, ch.found)
                && (ch.found.None? ==> LegalOwned(View(), msg.userID, ch.owned))
    {
      hide FloorIDOf, FloorRequestIDOf;
      ch := Choice(None, None, [], []);
      if FloorIDOf(msg).Some? {
        var k := FloorIDOf(msg).value;
        r := if k in floors then Success(floors[k]) else Failure(NoSuchFloor(k));
      } else if FloorRequestIDOf(msg).Some? {
        var f := GetFloorByRequestID(FloorRequestIDOf(msg).value);
        if f.None? {
          f := FloorOwnedBy(msg.userID);
          ch := ch.(owned := if f.Some? then Some(f.value.floorID) else None);
        } else {
          ch := ch.(found := Some(f.value.floorID));
        }
        r := if f.Some? then Success(f.value) else Failure(NoSuchRequest(FloorRequestIDOf(msg).value));
      } else {
        r := Failure(NoRequestID);
      }
    }

    method Free(floor: FloorStateMachine, userID: u16) returns (err: Option<FloorError>)
      requires Valid() && Ours(floor)
      modifies floor
      ensures var f := FloorOrNew(old(View()), floor.floorID);
              err == if f.Release(userID).Some? then None else Some(NotOwner(userID, floor.floorID, f.owner))
      ensures err.None? ==> floor.Value() == NewFloor()
      ensures View() == if err.None? then WithFloor(old(View()), floor.floorID, NewFloor()) else old(View())
    {
      err := floor.Release(userID);
      OneFloor(floor);
      assert err.Some? ==> FloorValues() == old(FloorValues());
    }

    /** The end of `handleUDPFloorRelease`, once the floor is free. */
    method AnnounceRelease(sess: Session, msg: Msg, floorID: u16) returns (ghost order: seq<Addr>)
      requires Valid() && Attached(sess) && sess.clientVersion == msg.version
      modifies this`nextTxID, this`ticks, this`callbacks, this`outbox, sess
      ensures Valid() && Walks(order, sessions.Keys - {sess.addr})
      ensures View() == Ticked(Logged(Moved(old(View()), sess.addr, FloorFreed), OnReleased(floorID, msg.userID)),
                               |order|)
      ensures outbox == old(outbox)
           + [Packet(sess.addr,
                     StatusReply(msg, ReplyVersion(msg.version), floorID, FloorRequestIDOf(msg).GetOr(0), Released))]
           + Notices(old(View()), conferenceID, order, old(ticks), msg.userID, floorID, FloorRequestIDOf(msg).GetOr(0))
    {
      hide View, Logged, Moved, StatusReply, FloorRequestIDOf, Notices, Walks, VersionAt;
      ghost var s := View();
      var requestID := FloorRequestIDOf(msg).GetOr(0);
      SendUDPFloorStatusResponse(sess, msg, floorID, requestID, Released);
      SetState(sess, FloorFreed);
      Log(OnReleased(floorID, msg.userID));
      ghost var t := View();
      order := BroadcastFloorStatusUDP(sess, msg.userID, floorID, requestID);
      SameVersions(s, sess.addr, OnReleased(floorID, msg.userID));
      NoticesAlike(s, t, conferenceID, order, ticks - |order|, msg.userID, floorID, requestID);
    }

    method HandleUDPFloorRelease(sess: Session, msg: Msg) returns (ghost ch: Choice)
      requires Valid() && Attached(sess) && sess.clientVersion == msg.version
      modifies this`nextTxID, this`ticks, this`callbacks, this`outbox, sess, floors.Values
      ensures Valid() && LegalRelease(old(View()), sess.addr, msg, ch)
      ensures View() == ReleaseState(old(View()), sess.addr, msg, ch)
      ensures outbox == old(outbox) + [Packet(sess.addr, ReleaseReply(old(View()), msg, ch))]
                                    + ReleaseNotices(old(View()), msg, conferenceID, ch)
    {
      hide View, Target, ReleaseState, ReleaseReply, ReleaseNotices, LegalFound, LegalOwned, FloorIDOf,
           FloorRequestIDOf, Refused;
      var floor;
      floor, ch := FindTarget(msg);
      ghost var s := View();
      if floor.Failure? {
        NotFreed(s, sess.addr, msg, ch, conferenceID, floor.error);
        Refuse(sess, msg, floor.error);
        AppendTwice(outbox, [], []);
        return;
      }
      ch := ReleaseOn(sess, msg, floor.value, ch);
    }

    method ReleaseOn(sess: Session, msg: Msg, floor: FloorStateMachine, ghost lookup: Choice) returns (ghost ch: Choice)
      requires Valid() && Attached(sess) && sess.clientVersion == msg.version
      requires Ours(floor) && Target(View(), msg, lookup) == Success(floor.floorID)
      modifies this`nextTxID, this`ticks, this`callbacks, this`outbox, sess, floor
      ensures Valid() && ch == lookup.(order := ch.order)
      ensures Freeable(old(View()), msg, ch).Success? ==> Walks(ch.order, old(View()).sessions.Keys - {sess.addr})
      ensures View() == ReleaseState(old(View()), sess.addr, msg, ch)
      ensures outbox == old(outbox) + [Packet(sess.addr, ReleaseReply(old(View()), msg, ch))]
                                    + ReleaseNotices(old(View()), msg, conferenceID, ch)
    {
      hide View, WithFloor, Ticked, Moved, Logged, Target, Freeable, ReleaseState, ReleaseReply, ReleaseNotices,
           Notices, StatusReply, Refused, FloorIDOf, FloorRequestIDOf, Walks;
      ghost var s := View();
      ch := lookup;
      var err := Free(floor, msg.userID);
      if err.Some? {
        RefusedToFree(s, sess.addr, msg, ch, conferenceID, floor.floorID);
        Refuse(sess, msg, ReleaseRefused(err.value));
        AppendTwice(outbox, [], []);
        return;
      }
      ghost var order := AnnounceRelease(sess, msg, floor.floorID);
      ch := ch.(order := order);
      FreedSteps(s, sess.addr, msg, lookup, order, conferenceID, floor.floorID);
    }

    method HandleUDPFloorQuery(sess: Session, msg: Msg)
      requires Valid() && sess.clientVersion == msg.version
      modifies this`outbox
      ensures outbox == old(outbox) + [Packet(sess.addr, QueryReply(View(), msg))]
    {
      hide Refused, FloorIDOf;
      var floorID := FloorIDOf(msg);
      if floorID.None? {
        Refuse(sess, msg, NothingQueried);
      } else if floorID.value !in floors {
        Refuse(sess, msg, NoSuchFloor(floorID.value));
      } else {
        SendFloorStatus(sess, msg, floors[floorID.value]);
      }
    }

    method SendFloorStatus(sess: Session, msg: Msg, floor: FloorStateMachine)
      requires Valid() && sess.clientVersion == msg.version
      modifies this`outbox
      ensures outbox == old(outbox) + [Packet(sess.addr, FloorReply(msg, floor.floorID, floor.Value()))]
    {
      var response := NewAnswer(FLOOR_STATUS, msg);
      response.AddFloorID(floor.floorID);
      response.AddFloorRequestID(floor.floorRequestID);
      response.AddRequestStatus(Code(floor.currentState), 0);
      assert response.attributes == FloorReply(msg, floor.floorID, floor.Value()).attributes;
      SendUDP(sess, response);
    }

    /** A snapshot of the floors of a user, in the order the map is walked. */
    method OwnedFloors(userID: u16) returns (list: seq<FloorStateMachine>, ghost ks: seq<u16>)
      requires Valid()
      ensures Walks(ks, Owned(View(), userID)) && |list| == |ks|
      ensures forall i :: 0 <= i < |list| ==>
                ks[i] in floors && floors[ks[i]] == list[i] && list[i].ownerUserID == userID
    {
      list, ks := [], [];
      var todo := floors.Keys;
      while todo != {}
        invariant todo <= floors.Keys && |list| == |ks|
        invariant Walks(ks, Owned(View(), userID) - todo)
        invariant forall i :: 0 <= i < |list| ==>
                    ks[i] in floors && floors[ks[i]] == list[i] && list[i].ownerUserID == userID
      {
        var k :| k in todo;
        WalkInto(ks, Owned(View(), userID), todo, k);
        todo := todo - {k};
        if floors[k].ownerUserID == userID {
          list, ks := list + [floors[k]], ks + [k];
        }
      }
    }

    method FreeAtGoodbye(sess: Session, floor: FloorStateMachine, userID: u16) returns (ghost order: seq<Addr>)
      requires Valid() && Attached(sess) && Ours(floor) && floor.ownerUserID == userID
      modifies this`nextTxID, this`ticks, this`callbacks, this`outbox, floor
      ensures Valid() && Walks(order, sessions.Keys - {sess.addr})
      ensures FloorOrNew(old(View()), floor.floorID).Release(userID).Some?
      ensures View() == FreedState(old(View()), floor.floorID, userID, |order|)
      ensures outbox == old(outbox) + Notices(old(View()), conferenceID, order, old(ticks), userID, floor.floorID, 0)
    {
      hide View, Notices, Walks, Logged, FreedState, Ticked;
      FloorAt(floor);
      ghost var s := View();
      var err := Free(floor, userID);
      ghost var t := View();
      var requestID := floor.floorRequestID;
      order := BroadcastFloorStatusUDP(sess, userID, floor.floorID, requestID);
      Log(OnReleased(floor.floorID, userID));
      GoodbyeStep(s, conferenceID, order, userID, floor.floorID);
    }

    lemma FloorAt(floor: FloorStateMachine)
      requires Valid() && Ours(floor)
      ensures FloorOrNew(View(), floor.floorID) == floor.Value()
    {
    }

    /** One turn of the loop below. */
    method FreeOneMore(sess: Session, floor: FloorStateMachine, userID: u16,
                       ghost s: State, ghost freed: seq<(u16, seq<Addr>)>, ghost sent: seq<Packet>)
      returns (ghost order: seq<Addr>)
      requires Valid() && Attached(sess) && Ours(floor) && floor.ownerUserID == userID
      requires View() == GoodbyeState(s, userID, freed)
                 && outbox == sent + GoodbyeNotices(s, conferenceID, userID, freed)
      requires LegalOrders(freed, sessions.Keys - {sess.addr})
      modifies this`nextTxID, this`ticks, this`callbacks, this`outbox, floor
      ensures Valid() && LegalOrders(freed + [(floor.floorID, order)], sessions.Keys - {sess.addr})
      ensures var more := freed + [(floor.floorID, order)];
              && FloorsOf(more) == FloorsOf(freed) + [floor.floorID]
              && View() == GoodbyeState(s, userID, more)
              && outbox == sent + GoodbyeNotices(s, conferenceID, userID, more)
    {
      hide View, GoodbyeState, GoodbyeNotices, Notices, Walks, FloorsOf, FloorOrNew, FreedState;
      ghost var t := View();
      order := FreeAtGoodbye(sess, floor, userID);
      GoodbyeMore(s, conferenceID, userID, freed, floor.floorID, order);
      AppendTwice(sent, GoodbyeNotices(s, conferenceID, userID, freed),
                  Notices(t, conferenceID, order, t.ticks, userID, floor.floorID, 0));
    }

    /** The floors of `list` released one after another. */
    method FreeAll(sess: Session, userID: u16, list: seq<FloorStateMachine>, ghost ks: seq<u16>)
      returns (ghost freed: seq<(u16, seq<Addr>)>)
      requires Valid() && Attached(sess) && |list| == |ks|
      requires forall i, j :: 0 <= i < j < |ks| ==> ks[i] != ks[j]
      requires forall i :: 0 <= i < |list| ==>
                 ks[i] in floors && floors[ks[i]] == list[i] && list[i].ownerUserID == userID
      modifies this`nextTxID, this`ticks, this`callbacks, this`outbox, floors.Values
      ensures Valid() && FloorsOf(freed) == ks && LegalOrders(freed, sessions.Keys - {sess.addr})
      ensures View() == GoodbyeState(old(View()), userID, freed)
      ensures outbox == old(outbox) + GoodbyeNotices(old(View()), conferenceID, userID, freed)
    {
      hide View, GoodbyeState, GoodbyeNotices, Notices, FloorsOf, LegalOrders;
      ghost var s, keys := View(), sessions.Keys - {sess.addr};
      freed := [];
      var i := 0;
      GoodbyeNone(s, conferenceID, userID, keys);
      AppendTwice(outbox, [], []);
      while i < |list|
        invariant Valid() && 0 <= i <= |list| && FloorsOf(freed) == ks[..i]
        invariant forall j :: i <= j < |list| ==> list[j].ownerUserID == userID
        invariant LegalOrders(freed, keys)
        invariant View() == GoodbyeState(s, userID, freed)
        invariant outbox == old(outbox) + GoodbyeNotices(s, conferenceID, userID, freed)
      {
        ghost var order := FreeOneMore(sess, list[i], userID, s, freed, old(outbox));
        freed := freed + [(ks[i], order)];
        i := i + 1;
      }
      assert ks[..|ks|] == ks;
    }

    method HandleUDPGoodbye(sess: Session, msg: Msg) returns (ghost ch: Choice)
      requires Valid() && Attached(sess)
      modifies this`nextTxID, this`ticks, this`callbacks, this`outbox, floors.Values
      ensures Valid() && LegalGoodbye(old(View()), sess.addr, msg, ch)
      ensures View() == GoodbyeState(old(View()), msg.userID, ch.freed)
      ensures outbox == old(outbox) + GoodbyeNotices(old(View()), conferenceID, msg.userID, ch.freed)
    {
      hide View, GoodbyeState, GoodbyeNotices, FloorsOf, LegalOrders;
      var list, ks := OwnedFloors(msg.userID);
      ghost var freed := FreeAll(sess, msg.userID, list, ks);
      ch := Choice(None, None, [], freed);
    }

    // ----- dispatch -------------------------------------------------------

    /** The session of an address, or a new one not registered yet; the datagram's version is noted. */
    method SessionOf(addr: Addr, msg: Msg) returns (sess: Session)
      requires Valid()
      modifies sessions.Values
      ensures Valid() && Attached(sess) && sess.addr == addr && sess.clientVersion == msg.version
      ensures sess in sessions.Values || fresh(sess)
      ensures sess.addr !in sessions ==> sess.supportedPrimitives == sess.supportedAttributes == []
      ensures View() == Touched(old(View()), addr, msg)
    {
      if addr in sessions {
        sess := sessions[addr];
      } else {
        LowMod(conferenceID, 0x1_0000);
        sess := new Session(addr, conferenceID % 0x1_0000);
      }
      sess.clientVersion := msg.version;
      assert SessionValues() == Touched(old(View()), addr, msg).sessions;
    }

    /** `Session.handleUDPMessage`; `s` is the state before the version was noted. */
    method Dispatch(sess: Session, msg: Msg, shouldGrant: bool, ghost s: State) returns (ghost ch: Choice)
      requires Valid() && Attached(sess) && sess.clientVersion == msg.version && View() == Touched(s, sess.addr, msg)
      requires sess.addr !in sessions ==> sess.supportedPrimitives == sess.supportedAttributes == []
      modifies this`floors, this`sessions, this`nextTxID, this`ticks, this`callbacks, this`outbox, floors.Values, sess
      ensures fresh(floors.Values - old(floors.Values)) && sessions.Values <= old(sessions.Values) + {sess}
      ensures Valid() && Legal(s, sess.addr, msg, ch)
      ensures View() == StateAfter(s, sess.addr, msg, shouldGrant, ch)
      ensures outbox == old(outbox) + Sent(sess.addr, Reply(s, sess.addr, msg, shouldGrant, ch))
                                    + NoticesAfter(s, sess.addr, msg, conferenceID, ch)
    {
      hide View, Touched, HelloState, RequestState, ReleaseState, GoodbyeState, HelloReply, RequestReply, ReleaseReply,
           QueryReply, ReleaseNotices, GoodbyeNotices, LegalRelease, LegalGoodbye;
      ch := Choice(None, None, [], []);
      if msg.primitive == HELLO {
        HandleUDPHello(sess, msg);
      } else if msg.primitive == FLOOR_REQUEST {
        HandleUDPFloorRequest(sess, msg, shouldGrant);
      } else if msg.primitive == FLOOR_RELEASE {
        ch := HandleUDPFloorRelease(sess, msg);
      } else if msg.primitive == FLOOR_QUERY {
        HandleUDPFloorQuery(sess, msg);
      } else if msg.primitive == GOODBYE {
        ch := HandleUDPGoodbye(sess, msg);
      }
    }

    /** No two addresses have the same client. */
    ghost predicate Apart()
      reads this`udpClients
    {
      forall a <- udpClients, b <- udpClients :: a != b ==> udpClients[a] != udpClients[b]
    }

    ghost function Clients(): (cs: map<Addr, UdpClient.Client>)
      reads this`udpClients, udpClients.Values
      ensures cs.Keys == udpClients.Keys
    {
      map a | a in udpClients :: udpClients[a].View()
    }

    /** Registers a client role toward `remote`. */
    method NewUDPClient(remote: Addr, conferenceID: u32, userID: u16, version: u8, t1: int, maxRetries: int)
      returns (c: UdpClient.UDPClient)
      requires Apart()
      modifies this`udpClients
      ensures fresh(c) && udpClients == old(udpClients)[remote := c] && Apart()
    {
      c := new UdpClient.UDPClient(conferenceID, userID, version, t1, maxRetries);
      udpClients := udpClients[remote := c];
    }

    method HandleAsServer(addr: Addr, msg: Msg, shouldGrant: bool) returns (ghost ch: Choice)
      requires Valid()
      modifies this`floors, this`sessions, this`nextTxID, this`ticks, this`callbacks, this`outbox, floors.Values,
               sessions.Values
      ensures fresh(floors.Values - old(floors.Values)) && fresh(sessions.Values - old(sessions.Values))
      ensures Valid() && Serving(old(View()), View(), addr, msg, shouldGrant, ch)
      ensures outbox == old(outbox) + Sending(old(View()), addr, msg, shouldGrant, ch, conferenceID)
    {
      hide View, Touched, Legal, StateAfter, Reply, NoticesAfter;
      ghost var s := View();
      var sess := SessionOf(addr, msg);
      ghost var before := outbox;
      ch := Dispatch(sess, msg, shouldGrant, s);
      AppendTwice(before, Sent(addr, Reply(s, addr, msg, shouldGrant, ch)),
                  NoticesAfter(s, addr, msg, conferenceID, ch));
    }

    /** The client of a changed client object is the only one that changed. */
    twostate lemma OneClient(addr: Addr)
      requires Apart() && addr in udpClients && udpClients == old(udpClients)
      requires forall a <- udpClients :: udpClients[a] != udpClients[addr] ==> unchanged(udpClients[a])
      ensures Clients() == old(Clients())[addr := udpClients[addr].View()]
    {
    }

    lemma ClientAt(addr: Addr)
      requires addr in udpClients
      ensures Clients()[addr] == udpClients[addr].View()
    {
    }

    method HandToClient(addr: Addr, msg: Msg)
      requires Apart() && addr in udpClients
      modifies udpClients[addr]
      ensures Clients() == Handing(old(Clients()), addr, msg)
    {
      hide UdpClient.Handled, Clients;
      ClientAt(addr);
      udpClients[addr].HandleMessage(msg);
      OneClient(addr);
    }

    /** A datagram goes to the client toward its address, if there is one, and otherwise to the session
        of that address. */
    method HandleUDPMessage(addr: Addr, msg: Msg, shouldGrant: bool) returns (ghost ch: Choice)
      requires Valid() && Apart()
      modifies this`floors, this`sessions, this`nextTxID, this`ticks, this`callbacks, this`outbox, floors.Values,
               sessions.Values
      modifies udpClients.Values
      ensures fresh(floors.Values - old(floors.Values)) && fresh(sessions.Values - old(sessions.Values))
      ensures Valid()
      ensures addr in udpClients ==> View() == old(View()) && outbox == old(outbox)
      ensures addr !in udpClients ==> Serving(old(View()), View(), addr, msg, shouldGrant, ch)
      ensures addr !in udpClients ==>
                outbox == old(outbox) + Sending(old(View()), addr, msg, shouldGrant, ch, conferenceID)
      ensures Clients() == Handing(old(Clients()), addr, msg)
    {
      hide View, Clients, Serving, Sending, UdpClient.Handled;
      if addr in udpClients {
        ch := Choice(None, None, [], []);
        HandToClient(addr, msg);
      } else {
        ch := HandleAsServer(addr, msg, shouldGrant);
      }
    }
  }

  /** `t` is the state after the datagram. */
  ghost predicate Serving(s: State, t: State, addr: Addr, m: Msg, grant: bool, ch: Choice) {
    Legal(s, addr, m, ch) && t == StateAfter(s, addr, m, grant, ch)
  }

  /** What the server sends: the reply, then the notices. */
  ghost function Sending(s: State, addr: Addr, m: Msg, grant: bool, ch: Choice, conf: u32): seq<Packet> {
    Sent(addr, Reply(s, addr, m, grant, ch)) + NoticesAfter(s, addr, m, conf, ch)
  }

  /** The clients after a datagram from `addr`. */
  function Handing(cs: map<Addr, UdpClient.Client>, addr: Addr, m: Msg): map<Addr, UdpClient.Client> {
    if addr in cs then cs[addr := UdpClient.Handled(cs[addr], m)] else cs
  }

  function Sent(to: Addr, reply: Option<Msg>): seq<Packet> {
    if reply.Some? then [Packet(to, reply.value)] else []
  }

  lemma GoodbyeNone(s: State, conf: u32, user: u16, others: set<Addr>)
    ensures GoodbyeState(s, user, []) == s && GoodbyeNotices(s, conf, user, []) == [] && LegalOrders([], others)
    ensures FloorsOf([]) == []
  {
  }

  lemma {:induction false} GoodbyeMore(s: State, conf: u32, user: u16, freed: seq<(u16, seq<Addr>)>, k: u16,
                                       order: seq<Addr>)
    requires FloorOrNew(GoodbyeState(s, user, freed), k).Release(user).Some?
    ensures var more, t := freed + [(k, order)], GoodbyeState(s, user, freed);
            && FloorsOf(more) == FloorsOf(freed) + [k]
            && GoodbyeState(s, user, more) == FreedState(t, k, user, |order|)
            && GoodbyeNotices(s, conf, user, more)
            == GoodbyeNotices(s, conf, user, freed) + Notices(t, conf, order, t.ticks, user, k, 0)
    decreases freed
  {
    hide FloorOrNew, FreedState, Notices;
    var more := freed + [(k, order)];
    if freed == [] {
      assert more[1..] == [];
      AppendTwice(Notices(s, conf, order, s.ticks, user, k, 0), [], []);
    } else {
      var rest := freed[1..];
      assert more[1..] == rest + [(k, order)];
      if FloorOrNew(s, freed[0].0).Release(user).None? {
        GoodbyeMore(s, conf, user, rest, k, order);
      } else {
        var next := FreedState(s, freed[0].0, user, |freed[0].1|);
        GoodbyeMore(next, conf, user, rest, k, order);
        var t := GoodbyeState(next, user, rest);
        AppendTwice(Notices(s, conf, freed[0].1, s.ticks, user, freed[0].0, 0), GoodbyeNotices(next, conf, user, rest),
                    Notices(t, conf, order, t.ticks, user, k, 0));
      }
    }
  }

  lemma WalkInto<T(!new)>(order: seq<T>, all: set<T>, todo: set<T>, x: T)
    requires x in todo && Walks(order, all - todo)
    ensures Walks(if x in all then order + [x] else order, all - (todo - {x}))
  {
    assert x !in order;
    assert forall y :: y in order + [x] <==> y in order || y == x;
  }

  lemma GoodbyeStep(s: State, conf: u32, order: seq<Addr>, user: u16, floor: u16)
    ensures var t := WithFloor(s, floor, NewFloor());
            && Logged(Ticked(t, |order|), OnReleased(floor, user)) == FreedState(s, floor, user, |order|)
            && Notices(t, conf, order, s.ticks, user, floor, 0) == Notices(s, conf, order, s.ticks, user, floor, 0)
  {
    NoticesAlike(s, WithFloor(s, floor, NewFloor()), conf, order, s.ticks, user, floor, 0);
  }

  lemma NotFreed(s: State, addr: Addr, m: Msg, ch: Choice, conf: u32, why: Refusal)
    requires Target(s, m, ch) == Failure(why)
    ensures Freeable(s, m, ch) == Failure(why) && ReleaseState(s, addr, m, ch) == s
    ensures ReleaseReply(s, m, ch) == Refused(m, why) && ReleaseNotices(s, m, conf, ch) == []
  {
    hide Target, Refused;
  }

  lemma RefusedToFree(s: State, addr: Addr, m: Msg, ch: Choice, conf: u32, floor: u16)
    requires Target(s, m, ch) == Success(floor) && FloorOrNew(s, floor).Release(m.userID).None?
    ensures Freeable(s, m, ch).Failure? && ReleaseState(s, addr, m, ch) == s
    ensures ReleaseReply(s, m, ch) == Refused(m, ReleaseRefused(NotOwner(m.userID, floor, FloorOrNew(s, floor).owner)))
    ensures ReleaseNotices(s, m, conf, ch) == []
  {
    hide Target, Refused;
  }

  /** The states a successful FloorRelease goes through. */
  lemma FreedSteps(s: State, addr: Addr, m: Msg, lookup: Choice, order: seq<Addr>, conf: u32, floor: u16)
    requires Target(s, m, lookup) == Success(floor) && FloorOrNew(s, floor).Release(m.userID).Some?
    ensures var ch, t := lookup.(order := order), WithFloor(s, floor, NewFloor());
            && Freeable(s, m, ch) == Success(floor)
            && ReleaseState(s, addr, m, ch)
            == Ticked(Logged(Moved(t, addr, FloorFreed), OnReleased(floor, m.userID)), |order|)
            && ReleaseReply(s, m, ch)
            == StatusReply(m, ReplyVersion(m.version), floor, FloorRequestIDOf(m).GetOr(0), Released)
            && ReleaseNotices(s, m, conf, ch)
            == Notices(t, conf, order, s.ticks, m.userID, floor, FloorRequestIDOf(m).GetOr(0))
  {
    hide StatusReply, FloorIDOf, FloorRequestIDOf, Notices;
    NoticesAlike(s, WithFloor(s, floor, NewFloor()), conf, order, s.ticks, m.userID, floor,
                 FloorRequestIDOf(m).GetOr(0));
  }

  function Ticked(s: State, n: nat): State {
    s.(ticks := s.ticks + n)
  }

  lemma SameVersions(s: State, addr: Addr, c: Callback)
    ensures forall a :: VersionAt(Logged(Moved(s, addr, FloorFreed), c), a) == VersionAt(s, a)
  {
  }

  lemma {:induction false} NoticesAlike(s: State, t: State, conf: u32, order: seq<Addr>, ticks: nat, user: u16,
                                        floor: u16, requestID: u16)
    requires forall a :: VersionAt(s, a) == VersionAt(t, a)
    ensures Notices(s, conf, order, ticks, user, floor, requestID)
              == Notices(t, conf, order, ticks, user, floor, requestID)
    decreases order
  {
    hide NoticeTo, VersionAt;
    if order != [] {
      NoticesAlike(s, t, conf, order[1..], ticks + 1, user, floor, requestID);
    }
  }

  function Concluded(s: State, addr: Addr, m: Msg, floor: u16, pending: Floor, requestID: u16, grant: bool): State {
    Logged(Moved(WithFloor(s, floor, Decided(pending, grant)), addr, if grant then HasFloor else FloorRefused),
           if grant then OnGranted(floor, m.userID, requestID) else OnDenied(floor, m.userID, requestID))
  }

  function Counted(s: State): State {
    s.(ticks := s.ticks + 1)
  }

  /** The state when `floor.Request` has answered. */
  function Asked(s: State, floor: u16, f: Floor): State {
    WithFloor(Counted(WithFloor(s, floor, FloorOrNew(s, floor))), floor, f)
  }

  function Asking(s: State, m: Msg, floor: u16): Option<Floor> {
    FloorOrNew(s, floor).Request(m.userID, ID(s.ticks + 1), PriorityOf(m))
  }

  lemma RefusedSteps(s: State, addr: Addr, m: Msg, grant: bool, floor: u16)
    requires FloorIDOf(m) == Some(floor) && Asking(s, m, floor).None?
    ensures RequestState(s, addr, m, grant)
              == Logged(Asked(s, floor, FloorOrNew(s, floor)), OnDenied(floor, m.userID, ID(s.ticks + 1)))
    ensures RequestReply(s, m, grant) == Refused(m, RequestRefused(FloorOrNew(s, floor).NotRequestable(floor)))
  {
    hide Refused, PriorityOf, FloorIDOf;
  }

  lemma AcceptedSteps(s: State, addr: Addr, m: Msg, grant: bool, floor: u16)
    requires FloorIDOf(m) == Some(floor) && Asking(s, m, floor).Some?
    ensures var pending := Asking(s, m, floor).value;
            && pending.status.Pending?
            && RequestState(s, addr, m, grant)
            == Concluded(Asked(s, floor, pending), addr, m, floor, pending, ID(s.ticks + 1), grant)
    ensures RequestReply(s, m, grant)
         == StatusReply(m, ReplyVersion(m.version), floor, ID(s.ticks + 1), if grant then Granted else Denied)
  {
    hide StatusReply, PriorityOf, FloorIDOf;
  }

  function Registered(s: State, addr: Addr, v: SessionValue): State {
    s.(sessions := s.sessions[addr := v])
  }

  function Announcing(was: SessionValue, m: Msg): SessionValue {
    was.(primitives := Announced(m, SUPPORTED_PRIMITIVES_TYPE, was.primitives),
         attributes := Announced(m, SUPPORTED_ATTRIBUTES_TYPE, was.attributes))
  }

  /** The session of `addr`, or one that has announced nothing. */
  predicate Continues(s: State, addr: Addr, was: SessionValue) {
    if addr in s.sessions then was == s.sessions[addr] else was.primitives == was.attributes == []
  }

  lemma HelloSteps(s: State, addr: Addr, m: Msg, was: SessionValue)
    requires was.clientVersion == m.version && Continues(s, addr, was)
    ensures var v := was.(userID := m.userID, conferenceID := m.conferenceID);
            var after := Moved(Registered(Registered(s, addr, v), addr, Announcing(v, m)), addr, WaitFloorRequest);
            HelloState(s, addr, m) == if addr in s.sessions then after else Logged(after, OnConnect(addr, m.userID))
  {
    hide Announced;
    var v := was.(userID := m.userID, conferenceID := m.conferenceID);
    assert s.sessions[addr := v][addr := Greeted(s, addr, m)] == s.sessions[addr := Greeted(s, addr, m)];
  }

  /** One more step of a walk over `keys` that leaves out `except`, with `todo` still ahead. */
  lemma WalkOn<T(!new)>(order: seq<T>, keys: set<T>, todo: set<T>, except: T, x: T)
    requires x in todo && todo <= keys && Walks(order, keys - todo - {except})
    ensures Walks(if x == except then order else order + [x], keys - (todo - {x}) - {except})
  {
    assert x !in order;
    assert forall y :: y in order + [x] <==> y in order || y == x;
  }
}
