/** What the clients of the UDP server are answered, and what every datagram does besides: the stamps of
    whatever is sent, and each request from the outside. */
module ServerReplies {
  import opened Wrappers
  import opened Octets
  import opened Tlv
  import opened Messages
  import opened Grouped
  import opened FloorState
  import opened Refusals
  import opened FloorServer
  import opened Delivery

  // ----- stamps -----------------------------------------------------------

  /** An answer: the version and IDs of the request, and the R flag exactly for version 2. */
  predicate Answers(reply: Msg, req: Msg) {
    && reply.version == req.version && reply.conferenceID == req.conferenceID
    && reply.transactionID == req.transactionID && reply.userID == req.userID
    && (Flag(reply.reserved) <==> reply.version == VERSION_RFC8855) && reply.reserved < 32
  }

  /** The same on the wire: 0x50 or 0x20 comes first. */
  ghost predicate OnTheWire(reply: Msg) {
    && Encoding(reply).Some? && Encoding(reply).value != []
    && Encoding(reply).value[0] == if reply.version == VERSION_RFC8855 then 0x50 else 0x20
  }

  lemma ReservedIs(reserved: u8)
    requires reserved < 32
    ensures Flag(reserved) <==> reserved >= 16
    ensures WithFlag(0, true) == 16 && WithFlag(16, false) == 0 && WithFlag(0, false) == 0
  {
  }

  lemma AnswerStamped(primitive: u8, req: Msg, attrs: seq<Attribute>)
    requires Speaks(req.version)
    ensures var a := Answer(primitive, req, req.version, attrs);
            && Answers(a, req) && a.primitive == primitive && a.attributes == attrs
            && a.reserved == if req.version == VERSION_RFC8855 then 16 else 0
  {
    ReservedIs(0);
    ReservedIs(16);
  }

  lemma AnswerOnTheWire(primitive: u8, req: Msg, attrs: seq<Attribute>)
    requires Speaks(req.version) && Aligned(Size(attrs))
    ensures OnTheWire(Answer(primitive, req, req.version, attrs))
  {
    hide Size, Aligned;
    AnswerStamped(primitive, req, attrs);
    WireLayout(Answer(primitive, req, req.version, attrs));
  }

  lemma {:induction false} PlainAligned(attrs: seq<Attribute>)
    requires forall i :: 0 <= i < |attrs| ==> !attrs[i].rawTLV
    ensures Aligned(Size(attrs))
    decreases attrs
  {
    if attrs != [] {
      PaddedAligned(2 + attrs[0].length);
      PlainAligned(attrs[1..]);
      AlignedSum(Slot(attrs[0]), Size(attrs[1..]));
    }
  }

  lemma InfoAligned(requestID: u16, status: u8, floor: u16)
    ensures Aligned(Size(WithInfo([], requestID, status, floor)))
  {
    InfoSize(requestID, status, floor);
    AlignedMod(20);
    assert [] + [InfoAttribute(requestID, status, floor)] == [InfoAttribute(requestID, status, floor)];
  }

  ghost predicate IsAnswer(r: Msg, m: Msg) {
    r == Answer(r.primitive, m, m.version, r.attributes) && Aligned(Size(r.attributes))
  }

  lemma StatusIsAnswer(m: Msg, floor: u16, requestID: u16, status: Status)
    requires Speaks(m.version)
    ensures IsAnswer(StatusReply(m, ReplyVersion(m.version), floor, requestID, status), m)
  {
    hide WithInfo, Size, Aligned;
    InfoAligned(requestID, Code(status), floor);
  }

  lemma PlainIsAnswer(r: Msg, m: Msg)
    requires r == Answer(r.primitive, m, m.version, r.attributes)
    requires forall i :: 0 <= i < |r.attributes| ==> !r.attributes[i].rawTLV
    ensures IsAnswer(r, m)
  {
    PlainAligned(r.attributes);
  }

  lemma RefusalIsAnswer(m: Msg, why: Refusal)
    requires Speaks(m.version)
    ensures IsAnswer(Refused(m, why), m)
  {
    hide Text, Bytes;
    PlainIsAnswer(Refused(m, why), m);
  }

  /** Every reply is an answer with attributes of whole words. */
  lemma ReplyIsAnswer(s: State, addr: Addr, m: Msg, grant: bool, ch: Choice)
    requires Speaks(m.version) && Reply(s, addr, m, grant, ch).Some?
    ensures IsAnswer(Reply(s, addr, m, grant, ch).value, m)
  {
    hide FloorIDOf, FloorRequestIDOf, PriorityOf, Freeable, IsAnswer, Refused, StatusReply;
    forall why ensures IsAnswer(Refused(m, why), m) {
      RefusalIsAnswer(m, why);
    }
    forall floor: u16, id: u16, status
      ensures IsAnswer(StatusReply(m, ReplyVersion(m.version), floor, id, status), m)
    {
      StatusIsAnswer(m, floor, id, status);
    }
    if m.primitive == HELLO || m.primitive == FLOOR_QUERY {
      HelloIsAnswer(s, m);
    }
  }

  lemma HelloIsAnswer(s: State, m: Msg)
    requires Speaks(m.version)
    ensures IsAnswer(HelloReply(m), m)
    ensures forall floor: u16, f :: IsAnswer(FloorReply(m, floor, f), m)
  {
    hide IsAnswer;
    PlainIsAnswer(HelloReply(m), m);
    forall floor: u16, f ensures IsAnswer(FloorReply(m, floor, f), m) {
      PlainIsAnswer(FloorReply(m, floor, f), m);
    }
  }

  /** To every datagram of version 1 or 2, in every state and for every legal choice: a reply carries the
      datagram's version and IDs, and the R flag exactly in version 2, down to its first octet. */
  lemma RepliesAreStamped(s: State, addr: Addr, m: Msg, grant: bool, ch: Choice)
    requires Speaks(m.version)
    ensures var reply := Reply(s, addr, m, grant, ch);
            && (reply.Some? <==> m.primitive in {HELLO, FLOOR_REQUEST, FLOOR_RELEASE, FLOOR_QUERY})
            && (reply.Some? ==> Answers(reply.value, m) && OnTheWire(reply.value))
  {
    hide RequestReply, ReleaseReply, QueryReply, HelloReply;
    if Reply(s, addr, m, grant, ch).Some? {
      var r := Reply(s, addr, m, grant, ch).value;
      ReplyIsAnswer(s, addr, m, grant, ch);
      AnswerStamped(r.primitive, m, r.attributes);
      AnswerOnTheWire(r.primitive, m, r.attributes);
    }
  }

  // ----- refusals ---------------------------------------------------------

  /** The reply is an Error with that code and, as text, what it is about. */
  ghost predicate Refuses(reply: Option<Msg>, code: u8, text: string) {
    && reply.Some? && Received(reply.value).primitive == ERROR
    && First(Received(reply.value).attributes, ERROR_CODE) == Some(Plain(ERROR_CODE, [code]))
    && First(Received(reply.value).attributes, ERROR_INFO) == Some(Plain(ERROR_INFO, Bytes(text)))
  }

  lemma TwoFirst(a: Attribute, b: Attribute)
    requires a.typ != b.typ
    ensures First([a] + [b], a.typ) == Some(a) && First([a] + [b], b.typ) == Some(b)
  {
    assert ([a] + [b])[1..] == [b];
  }

  lemma RefusalArrives(req: Msg, why: Refusal)
    requires Speaks(req.version)
    ensures Refuses(Some(Refused(req, why)), ErrorCode(why), Text(why))
  {
    hide Text, Received, Slot, Decoding, Encoding, Bytes;
    TextFits(why);
    var code: seq<u8> := [ErrorCode(why)];
    var a, b := Plain(ERROR_CODE, code), Plain(ERROR_INFO, Bytes(Text(why)));
    SlotSmall(ERROR_CODE, code);
    SlotSmall(ERROR_INFO, Bytes(Text(why)));
    TwoAttributes(Refused(req, why), a, b);
    TwoFirst(a, b);
  }

  // ----- notices ----------------------------------------------------------

  /** Each address of `order` has one notice, in that order and with the next IDs: the floor is Released. */
  ghost predicate Notifies(ss: map<Addr, SessionValue>, packets: seq<Packet>, conf: u32, order: seq<Addr>, ticks: nat,
                           user: u16,
                           floor: u16, requestID: u16) {
    && |packets| == |order|
    && forall i :: 0 <= i < |packets| ==>
         Notifying(ss, packets[i], order[i], conf, ticks + 1 + i, user, floor, requestID)
  }

  /** One notice: the R flag clear, in the version of the session it goes to. */
  ghost predicate Notifying(ss: map<Addr, SessionValue>, p: Packet, to: Addr, conf: u32, ticks: nat, user: u16,
                            floor: u16, requestID: u16) {
    && p.to == to && p.msg.reserved == 0 && !Flag(p.msg.reserved)
    && p.msg.version == (if to in ss && ss[to].clientVersion > 0 then ss[to].clientVersion
                         else VERSION_RFC8855)
    && p.msg.conferenceID == conf && p.msg.userID == user && p.msg.transactionID == Low(ticks, 0x1_0000)
    && (Speaks(p.msg.version) ==>
          && IsNews(Received(p.msg), floor, requestID, 6)
          && Encoding(p.msg).Some? && Encoding(p.msg).value != []
          && Encoding(p.msg).value[0] == p.msg.version * 32)
  }

  lemma NoticeStamp(conf: u32, txID: u16, version: u8, user: u16, floor: u16, requestID: u16)
    ensures var n := Notice(conf, txID, version, user, floor, requestID, Released);
            && n.reserved == 0 && !Flag(n.reserved) && n.version == version && n.conferenceID == conf
            && n.userID == user && n.transactionID == txID
            && n.attributes == WithInfo([], requestID, Code(Released), floor)
  {
    hide WithInfo;
    ReservedIs(0);
  }

  lemma FirstOctetSent(m: Msg)
    requires Aligned(Size(m.attributes))
    ensures Encoding(m).Some? && Encoding(m).value != []
    ensures Encoding(m).value[0] == m.version % 8 * 32 + m.reserved % 32
  {
    WireLayout(m);
  }

  lemma NoticeStamped(conf: u32, txID: u16, version: u8, user: u16, floor: u16, requestID: u16)
    ensures var n := Notice(conf, txID, version, user, floor, requestID, Released);
            && n.reserved == 0 && !Flag(n.reserved) && n.version == version && n.conferenceID == conf
            && n.userID == user && n.transactionID == txID
            && (Speaks(version) ==>
                  && IsNews(Received(n), floor, requestID, 6)
                  && Encoding(n).Some? && Encoding(n).value != [] && Encoding(n).value[0] == version * 32)
  {
    hide Received, IsNews, WithInfo, Size, Aligned, Notice, Flag, Encoding;
    NoticeStamp(conf, txID, version, user, floor, requestID);
    if Speaks(version) {
      NoticeArrives(conf, txID, version, user, floor, requestID);
      InfoAligned(requestID, Code(Released), floor);
      FirstOctetSent(Notice(conf, txID, version, user, floor, requestID, Released));
    }
  }

  lemma {:induction false} NoticesNotify(s: State, conf: u32, order: seq<Addr>, ticks: nat, user: u16, floor: u16,
                                         requestID: u16)
    ensures Notifies(s.sessions, Notices(s, conf, order, ticks, user, floor, requestID), conf, order, ticks, user,
                     floor, requestID)
    decreases order
  {
    hide Notice, Received, IsNews, Encoding, Flag;
    if order != [] {
      var rest := Notices(s, conf, order[1..], ticks + 1, user, floor, requestID);
      NoticeStamped(conf, ID(ticks + 1), VersionAt(s, order[0]), user, floor, requestID);
      NoticesNotify(s, conf, order[1..], ticks + 1, user, floor, requestID);
      var packets := Notices(s, conf, order, ticks, user, floor, requestID);
      forall i | 0 <= i < |packets|
        ensures Notifying(s.sessions, packets[i], order[i], conf, ticks + 1 + i, user, floor, requestID)
      {
        if i > 0 {
          assert packets[i] == rest[i - 1] && order[i] == order[1..][i - 1];
          assert Notifying(s.sessions, rest[i - 1], order[1..][i - 1], conf, ticks + 1 + 1 + (i - 1), user, floor,
                           requestID);
        }
      }
    }
  }

  /** Every other session has exactly one notice of the release. */
  ghost predicate TellsOthers(s: State, packets: seq<Packet>, addr: Addr, conf: u32, user: u16, floor: u16,
                              requestID: u16) {
    exists order: seq<Addr> ::
      && Walks(order, s.sessions.Keys - {addr})
           && Notifies(s.sessions, packets, conf, order, s.ticks, user, floor, requestID)
  }

  // ----- what a datagram leaves alone --------------------------------------

  /** Nothing has happened but that the session of `addr` noted the version. */
  predicate OnlyNoted(s: State, t: State, addr: Addr, version: u8) {
    && t.floors == s.floors && t.ticks == s.ticks && t.callbacks == s.callbacks && t.sessions.Keys == s.sessions.Keys
    && forall a <- s.sessions ::
         t.sessions[a] == if a == addr then s.sessions[a].(clientVersion := version) else s.sessions[a]
  }

  /** Sessions after a request from `addr`, whose session is in state `st` now. */
  predicate SessionMoved(s: State, t: State, addr: Addr, version: u8, st: SessionState) {
    && t.sessions.Keys == s.sessions.Keys
    && forall a <- s.sessions ::
         t.sessions[a] == if a == addr then s.sessions[a].(clientVersion := version, state := st) else s.sessions[a]
  }

  /** A request that is refused changes nothing, and nobody else hears of it. */
  ghost predicate Declined(s: State, addr: Addr, m: Msg, grant: bool, ch: Choice, conf: u32, code: u8, text: string) {
    && OnlyNoted(s, StateAfter(s, addr, m, grant, ch), addr, m.version)
    && NoticesAfter(s, addr, m, conf, ch) == [] && Refuses(Reply(s, addr, m, grant, ch), code, text)
  }

  lemma TouchedNotes(s: State, addr: Addr, m: Msg)
    ensures OnlyNoted(s, Touched(s, addr, m), addr, m.version)
  {
  }

  // ----- releases ---------------------------------------------------------

  /** The floor is free, its release is answered, reported once and announced to every other session. */
  ghost predicate Frees(s: State, addr: Addr, m: Msg, grant: bool, ch: Choice, conf: u32, floor: u16) {
    var t, reply := StateAfter(s, addr, m, grant, ch), Reply(s, addr, m, grant, ch);
    var packets, requestID := NoticesAfter(s, addr, m, conf, ch), FloorRequestIDOf(m).GetOr(0);
    && t.floors == s.floors[floor := Floor(Released, 0, 0, 0)] && t.ticks == s.ticks + |packets|
    && t.callbacks == s.callbacks + [OnReleased(floor, m.userID)]
    && SessionMoved(s, t, addr, m.version, FloorFreed)
    && reply.Some? && IsNews(Received(reply.value), floor, requestID, 6)
    && TellsOthers(s, packets, addr, conf, m.userID, floor, requestID)
  }

  lemma NotifiesAlike(a: map<Addr, SessionValue>, b: map<Addr, SessionValue>, packets: seq<Packet>, conf: u32,
                      order: seq<Addr>, ticks: nat, user: u16, floor: u16, requestID: u16)
    requires Notifies(a, packets, conf, order, ticks, user, floor, requestID)
    requires forall i :: 0 <= i < |order| ==> order[i] in a && order[i] in b && a[order[i]] == b[order[i]]
    ensures Notifies(b, packets, conf, order, ticks, user, floor, requestID)
  {
    hide IsNews, Received, Encoding, Flag;
  }

  lemma FreesFloor(s: State, addr: Addr, m: Msg, grant: bool, ch: Choice, conf: u32, k: u16)
    requires m.primitive == FLOOR_RELEASE && Speaks(m.version) && Legal(s, addr, m, ch)
    requires Target(Touched(s, addr, m), m, ch) == Success(k) && k in s.floors && s.floors[k].owner == m.userID
    ensures Frees(s, addr, m, grant, ch, conf, k)
  {
    hide Target, FloorIDOf, FloorRequestIDOf, Notices, StatusReply, Received, IsNews, Walks;
    var t, r := Touched(s, addr, m), FloorRequestIDOf(m).GetOr(0);
    assert Freeable(t, m, ch) == Success(k);
    StatusArrives(m, k, r, Released);
    NoticesNotify(t, conf, ch.order, t.ticks, m.userID, k, r);
    TouchedNotes(s, addr, m);
    var packets := Notices(t, conf, ch.order, t.ticks, m.userID, k, r);
    assert NoticesAfter(s, addr, m, conf, ch) == packets;
    WalkedOthers(s, t, addr, ch.order);
    NotifiesAlike(t.sessions, s.sessions, packets, conf, ch.order, s.ticks, m.userID, k, r);
    assert TellsOthers(s, packets, addr, conf, m.userID, k, r);
  }

  lemma WalkedOthers(s: State, t: State, addr: Addr, order: seq<Addr>)
    requires Walks(order, t.sessions.Keys - {addr}) && t.sessions.Keys == s.sessions.Keys
    requires forall a <- s.sessions :: a != addr ==> t.sessions[a] == s.sessions[a]
    ensures Walks(order, s.sessions.Keys - {addr})
    ensures forall i :: 0 <= i < |order| ==> order[i] in s.sessions && order[i] in t.sessions
                                             && s.sessions[order[i]] == t.sessions[order[i]]
  {
    forall i | 0 <= i < |order| ensures order[i] in t.sessions.Keys - {addr} {
      assert order[i] in order;
    }
  }

  lemma DeclinesRelease(s: State, addr: Addr, m: Msg, grant: bool, ch: Choice, conf: u32, why: Refusal)
    requires m.primitive == FLOOR_RELEASE && Speaks(m.version) && Freeable(Touched(s, addr, m), m, ch) == Failure(why)
    ensures Declined(s, addr, m, grant, ch, conf, ErrorCode(why), Text(why))
  {
    hide Freeable, Refused, Text, Refuses, ErrorCode;
    TouchedNotes(s, addr, m);
    RefusalArrives(m, why);
  }

  /** A release of a floor frees it exactly when it belongs to the sender, and is refused otherwise, with
      error 6 when there is no such floor and error 10 when it is another's. */
  lemma ReleaseByFloor(s: State, addr: Addr, m: Msg, grant: bool, ch: Choice, conf: u32, k: u16)
    requires m.primitive == FLOOR_RELEASE && m.userID != 0 && Speaks(m.version) && Legal(s, addr, m, ch)
    requires FloorIDOf(m) == Some(k)
    ensures if k !in s.floors then Declined(s, addr, m, grant, ch, conf, 6, Text(NoSuchFloor(k)))
            else if s.floors[k].owner == m.userID then Frees(s, addr, m, grant, ch, conf, k)
            else Declined(s, addr, m, grant, ch, conf, 10,
                          Text(ReleaseRefused(NotOwner(m.userID, k, s.floors[k].owner))))
  {
    hide Legal, Frees, Declined, FloorIDOf, FloorRequestIDOf, Text;
    if k in s.floors && s.floors[k].owner == m.userID {
      FreesFloor(s, addr, m, grant, ch, conf, k);
    } else {
      var why := if k in s.floors then ReleaseRefused(NotOwner(m.userID, k, s.floors[k].owner)) else NoSuchFloor(k);
      assert Freeable(Touched(s, addr, m), m, ch) == Failure(why);
      DeclinesRelease(s, addr, m, grant, ch, conf, why);
    }
  }

  /** A release by request ID is about some floor with that ID, whichever the walk finds: it is freed if it
      belongs to the sender, and refused with error 10 otherwise. */
  lemma ReleaseByRequest(s: State, addr: Addr, m: Msg, grant: bool, ch: Choice, conf: u32, r: u16)
    requires m.primitive == FLOOR_RELEASE && m.userID != 0 && Speaks(m.version) && Legal(s, addr, m, ch)
    requires FloorIDOf(m) == None && FloorRequestIDOf(m) == Some(r)
    requires exists k <- s.floors :: s.floors[k].requestID == r
    ensures exists k :: k in s.floors && s.floors[k].requestID == r
              && if s.floors[k].owner == m.userID then Frees(s, addr, m, grant, ch, conf, k)
                 else Declined(s, addr, m, grant, ch, conf, 10,
                               Text(ReleaseRefused(NotOwner(m.userID, k, s.floors[k].owner))))
  {
    hide Frees, Declined, FloorIDOf, FloorRequestIDOf, Text, Walks;
    assert ch.found.Some?;
    var k := ch.found.value;
    assert k in s.floors && s.floors[k].requestID == r;
    if s.floors[k].owner == m.userID {
      FreesFloor(s, addr, m, grant, ch, conf, k);
    } else {
      DeclinesRelease(s, addr, m, grant, ch, conf, ReleaseRefused(NotOwner(m.userID, k, s.floors[k].owner)));
    }
  }

  /** With an unknown request ID a floor in use by the sender is freed, and error 7 says there is none. */
  lemma ReleaseByOwner(s: State, addr: Addr, m: Msg, grant: bool, ch: Choice, conf: u32, r: u16)
    requires m.primitive == FLOOR_RELEASE && m.userID != 0 && Speaks(m.version) && Legal(s, addr, m, ch)
    requires FloorIDOf(m) == None && FloorRequestIDOf(m) == Some(r)
    requires forall k <- s.floors :: s.floors[k].requestID != r
    ensures if exists k <- s.floors :: !s.floors[k].status.Released? && s.floors[k].owner == m.userID
            then exists k :: k in s.floors && s.floors[k].owner == m.userID && Frees(s, addr, m, grant, ch, conf, k)
            else Declined(s, addr, m, grant, ch, conf, 7, Text(NoSuchRequest(r)))
  {
    hide Frees, Declined, FloorIDOf, FloorRequestIDOf, Text, Walks;
    assert ch.found == None;
    if ch.owned.Some? {
      FreesFloor(s, addr, m, grant, ch, conf, ch.owned.value);
    } else {
      DeclinesRelease(s, addr, m, grant, ch, conf, NoSuchRequest(r));
    }
  }

  /** A release that names neither is refused with error 4. */
  lemma ReleaseOfNothing(s: State, addr: Addr, m: Msg, grant: bool, ch: Choice, conf: u32)
    requires m.primitive == FLOOR_RELEASE && Speaks(m.version) && FloorIDOf(m) == None && FloorRequestIDOf(m) == None
    ensures Declined(s, addr, m, grant, ch, conf, 4, Text(NoRequestID))
  {
    hide Declined, FloorIDOf, FloorRequestIDOf, Text;
    DeclinesRelease(s, addr, m, grant, ch, conf, NoRequestID);
  }

  // ----- requests ---------------------------------------------------------

  /** The two-octet value of the PRIORITY attribute, or 512 without one. */
  predicate AsksWith(m: Msg, priority: u16) {
    match First(m.attributes, PRIORITY)
    case Some(a) => priority == if |a.value| >= 2 then a.value[0] as int * 0x100 + a.value[1] else 512
    case None => priority == 512
  }

  lemma PriorityAsked(m: Msg)
    ensures AsksWith(m, PriorityOf(m))
  {
  }

  predicate FreeAt(s: State, k: u16) {
    k in s.floors ==> s.floors[k].status.Released?
  }

  /** Only `k` is new or different. */
  predicate FloorBecomes(s: State, t: State, k: u16, f: Floor) {
    t.floors == s.floors[k := f]
  }

  /** A request without a floor is refused with error 6 and counts as none. */
  lemma RequestOfNothing(s: State, addr: Addr, m: Msg, grant: bool, ch: Choice, conf: u32)
    requires m.primitive == FLOOR_REQUEST && Speaks(m.version) && FloorIDOf(m) == None
    ensures Declined(s, addr, m, grant, ch, conf, 6, Text(NoFloorID))
  {
    hide FloorIDOf, FloorRequestIDOf, Text, Refuses, Refused, PriorityOf, ErrorCode;
    TouchedNotes(s, addr, m);
    RefusalArrives(m, NoFloorID);
    assert ErrorCode(NoFloorID) == 6 by {
      CodeOfNoFloor();
    }
  }

  lemma CodeOfNoFloor()
    ensures ErrorCode(NoFloorID) == 6 && forall e :: ErrorCode(RequestRefused(e)) == 5
  {
  }

  /** A request for a free floor, or one that does not exist yet, takes the next request ID: the decision is
      the floor's state, the answer, the session's state and the one callback. */
  lemma RequestOfFree(s: State, addr: Addr, m: Msg, grant: bool, ch: Choice, conf: u32, k: u16)
    requires m.primitive == FLOOR_REQUEST && Speaks(m.version) && FloorIDOf(m) == Some(k) && FreeAt(s, k)
    ensures var t, reply, r := StateAfter(s, addr, m, grant, ch), Reply(s, addr, m, grant, ch), ID(s.ticks + 1);
            && t.ticks == s.ticks + 1 && NoticesAfter(s, addr, m, conf, ch) == []
            && (exists priority: u16 :: AsksWith(m, priority) &&
                  FloorBecomes(s, t, k, if grant then Floor(Granted, m.userID, r, priority)
                                        else Floor(Denied, 0, 0, priority)))
            && t.callbacks == s.callbacks + [if grant then OnGranted(k, m.userID, r) else OnDenied(k, m.userID, r)]
            && SessionMoved(s, t, addr, m.version, if grant then HasFloor else FloorRefused)
            && reply.Some? && IsNews(Received(reply.value), k, r, if grant then 3 else 4)
  {
    hide FloorIDOf, FloorRequestIDOf, StatusReply, Received, IsNews, PriorityOf, AsksWith, ID;
    PriorityAsked(m);
    TouchedNotes(s, addr, m);
    StatusArrives(m, k, ID(s.ticks + 1), if grant then Granted else Denied);
    assert FloorBecomes(s, StateAfter(s, addr, m, grant, ch), k,
                        if grant then Floor(Granted, m.userID, ID(s.ticks + 1), PriorityOf(m))
                        else Floor(Denied, 0, 0, PriorityOf(m)));
  }

  /** A request for a floor that is not free changes no floor: it is refused with error 5, which names the
      floor's user or its state, and reported as denied, under a request ID of its own. */
  lemma RequestOfTaken(s: State, addr: Addr, m: Msg, grant: bool, ch: Choice, conf: u32, k: u16)
    requires m.primitive == FLOOR_REQUEST && Speaks(m.version) && FloorIDOf(m) == Some(k) && !FreeAt(s, k)
    ensures var t, r, f := StateAfter(s, addr, m, grant, ch), ID(s.ticks + 1), s.floors[k];
            && t.floors == s.floors && t.ticks == s.ticks + 1 && NoticesAfter(s, addr, m, conf, ch) == []
            && t.callbacks == s.callbacks + [OnDenied(k, m.userID, r)]
            && OnlyNoted(s, t.(ticks := s.ticks, callbacks := s.callbacks), addr, m.version)
            && Refuses(Reply(s, addr, m, grant, ch), 5,
                       Text(RequestRefused(if f.status in {Pending, Granted} then AlreadyInUse(k, f.owner)
                                           else InvalidState(f.status))))
  {
    hide FloorIDOf, FloorRequestIDOf, Refuses, Refused, Text, PriorityOf, ID, ErrorCode;
    CodeOfNoFloor();
    TouchedNotes(s, addr, m);
    RefusalArrives(m, RequestRefused(s.floors[k].NotRequestable(k)));
  }

  // ----- queries, greetings, goodbyes and the rest -------------------------

  /** A query changes nothing; it is told the floor's status and request ID, or refused. */
  lemma QueryTold(s: State, addr: Addr, m: Msg, grant: bool, ch: Choice, conf: u32)
    requires m.primitive == FLOOR_QUERY && Speaks(m.version)
    ensures match FloorIDOf(m)
            case None => Declined(s, addr, m, grant, ch, conf, 4, Text(NothingQueried))
            case Some(k) =>
              if k !in s.floors then Declined(s, addr, m, grant, ch, conf, 6, Text(NoSuchFloor(k)))
              else
                var reply := Reply(s, addr, m, grant, ch);
                && OnlyNoted(s, StateAfter(s, addr, m, grant, ch), addr, m.version)
                && NoticesAfter(s, addr, m, conf, ch) == []
                && reply.Some? && Received(reply.value).primitive == FLOOR_STATUS
                && FloorIDOf(Received(reply.value)) == Some(k)
                && FloorRequestIDOf(Received(reply.value)) == Some(s.floors[k].requestID)
                && RequestStatusOf(Received(reply.value)) == Some((Code(s.floors[k].status), 0))
  {
    hide FloorIDOf, FloorRequestIDOf, RequestStatusOf, Received, Refuses, Refused, Text, ErrorCode, FloorReply, Code;
    TouchedNotes(s, addr, m);
    QueryCodes();
    if FloorIDOf(m).None? {
      RefusalArrives(m, NothingQueried);
    } else if FloorIDOf(m).value !in s.floors {
      RefusalArrives(m, NoSuchFloor(FloorIDOf(m).value));
    } else {
      FloorReplyRead(m, FloorIDOf(m).value, s.floors[FloorIDOf(m).value]);
    }
  }

  lemma QueryCodes()
    ensures ErrorCode(NothingQueried) == 4 && forall k: u16 :: ErrorCode(NoSuchFloor(k)) == 6
  {
  }

  lemma ThreeAttributes(m: Msg, a: Attribute, b: Attribute, c: Attribute)
    requires Supported(m) && m.attributes == [a, b, c] && Fits(a) && Fits(b) && Fits(c)
    requires Slot(a) <= 108 && Slot(b) <= 108 && Slot(c) <= 108
    ensures WellFormed(m) && Received(m) == m.(payloadLength := PayloadWords(m.attributes))
  {
    SizeCons(a, [b, c]);
    SizeCons(b, [c]);
    SizeCons(c, []);
    assert [a] + [b, c] == [a, b, c] && [b] + [c] == [b, c] && [c] + [] == [c];
    RoundTripIff(m);
  }

  lemma FirstOfThree(a: Attribute, b: Attribute, c: Attribute)
    requires a.typ != b.typ && a.typ != c.typ && b.typ != c.typ
    ensures First([a, b, c], a.typ) == Some(a)
    ensures First([a, b, c], b.typ) == Some(b) && First([a, b, c], c.typ) == Some(c)
  {
    assert [a, b, c][1..] == [b] + [c];
    TwoFirst(b, c);
  }

  lemma FloorReplyRead(m: Msg, k: u16, f: Floor)
    requires Speaks(m.version)
    ensures var r := Received(FloorReply(m, k, f));
            && r.primitive == FLOOR_STATUS && FloorIDOf(r) == Some(k) && FloorRequestIDOf(r) == Some(f.requestID)
            && RequestStatusOf(r) == Some((Code(f.status), 0))
  {
    hide Received, Slot, Infos, Decoding, Encoding, First;
    var id, request := PutU16(k), PutU16(f.requestID);
    var status: seq<u8> := [Code(f.status), 0];
    var a, b, c := Plain(FLOOR_ID, id), Plain(FLOOR_REQUEST_ID, request), Plain(REQUEST_STATUS, status);
    SlotSmall(FLOOR_ID, id);
    SlotSmall(FLOOR_REQUEST_ID, request);
    SlotSmall(REQUEST_STATUS, status);
    ThreeAttributes(FloorReply(m, k, f), a, b, c);
    FirstOfThree(a, b, c);
  }

  /** A Hello registers its session, with the lists it announces or those it had; only the first one of an
      address is reported. The answer lists what the server supports. */
  lemma HelloServed(s: State, addr: Addr, m: Msg, grant: bool, ch: Choice, conf: u32)
    requires m.primitive == HELLO && Speaks(m.version)
    ensures var t, reply := StateAfter(s, addr, m, grant, ch), Reply(s, addr, m, grant, ch);
            && t.floors == s.floors && t.ticks == s.ticks && NoticesAfter(s, addr, m, conf, ch) == []
            && t.sessions.Keys == s.sessions.Keys + {addr}
            && (forall a <- s.sessions :: a != addr ==> t.sessions[a] == s.sessions[a])
            && t.callbacks == s.callbacks + (if addr in s.sessions then [] else [OnConnect(addr, m.userID)])
            && (var v := t.sessions[addr];
                && v.userID == m.userID && v.conferenceID == m.conferenceID && v.clientVersion == m.version
                && v.state == WaitFloorRequest
                && (match First(m.attributes, SUPPORTED_PRIMITIVES_TYPE)
                    case Some(a) => v.primitives == a.value
                    case None => v.primitives == if addr in s.sessions then s.sessions[addr].primitives else [])
                && (match First(m.attributes, SUPPORTED_ATTRIBUTES_TYPE)
                    case Some(a) => v.attributes == a.value
                    case None => v.attributes == if addr in s.sessions then s.sessions[addr].attributes else []))
            && reply.Some? && Received(reply.value).primitive == HELLO_ACK
            && First(Received(reply.value).attributes, 11) == Some(Plain(11, SUPPORTED_PRIMITIVES))
            && First(Received(reply.value).attributes, 10) == Some(Plain(10, SUPPORTED_ATTRIBUTES))
  {
    hide Received, First;
    HelloReplyRead(m);
  }

  lemma HelloReplyRead(m: Msg)
    requires Speaks(m.version)
    ensures var r := Received(HelloReply(m));
            && r.primitive == HELLO_ACK
            && First(r.attributes, 11) == Some(Plain(11, SUPPORTED_PRIMITIVES))
            && First(r.attributes, 10) == Some(Plain(10, SUPPORTED_ATTRIBUTES))
  {
    hide Received, Slot, Decoding, Encoding;
    SlotSmall(11, SUPPORTED_PRIMITIVES);
    SlotSmall(10, SUPPORTED_ATTRIBUTES);
    var a, b := Plain(11, SUPPORTED_PRIMITIVES), Plain(10, SUPPORTED_ATTRIBUTES);
    assert [a, b] == [a] + [b];
    TwoAttributes(HelloReply(m), a, b);
    TwoFirst(a, b);
  }

  /** A release reported for each floor of the list, in order. */
  function Reporting(floors: seq<u16>, user: u16): (r: seq<Callback>)
    ensures |r| == |floors| && forall i :: 0 <= i < |r| ==> r[i] == OnReleased(floors[i], user)
  {
    if floors == [] then [] else [OnReleased(floors[0], user)] + Reporting(floors[1..], user)
  }

  /** For each floor of the list, in order, one notice for each other session; no ID is used twice. */
  ghost predicate TellsEach(ss: map<Addr, SessionValue>, packets: seq<Packet>, others: set<Addr>, conf: u32, ticks: nat,
                            user: u16, floors: seq<u16>)
    decreases floors
  {
    if floors == [] then packets == []
    else
      exists order: seq<Addr> ::
        && Walks(order, others) && |order| <= |packets|
        && Notifies(ss, packets[..|order|], conf, order, ticks, user, floors[0], 0)
        && TellsEach(ss, packets[|order|..], others, conf, ticks + |order|, user, floors[1..])
  }

  lemma TellsFirst(ss: map<Addr, SessionValue>, packets: seq<Packet>, rest: seq<Packet>, others: set<Addr>, conf: u32,
                   ticks: nat, user: u16, floors: seq<u16>, order: seq<Addr>)
    requires floors != [] && Walks(order, others) && Notifies(ss, packets, conf, order, ticks, user, floors[0], 0)
    requires TellsEach(ss, rest, others, conf, ticks + |order|, user, floors[1..])
    ensures TellsEach(ss, packets + rest, others, conf, ticks, user, floors) && |packets| == |order|
  {
    hide Notifying, Walks;
    assert (packets + rest)[..|order|] == packets && (packets + rest)[|order|..] == rest;
  }

  /** Floors of the sender that are all different can be freed one after another. */
  ghost predicate Freeables(s: State, user: u16, freed: seq<(u16, seq<Addr>)>, others: set<Addr>) {
    && (forall i :: 0 <= i < |freed| ==> freed[i].0 in s.floors && s.floors[freed[i].0].owner == user)
    && (forall i, j :: 0 <= i < j < |freed| ==> freed[i].0 != freed[j].0)
    && LegalOrders(freed, others)
  }

  lemma FreeablesLeft(s: State, user: u16, freed: seq<(u16, seq<Addr>)>, others: set<Addr>)
    requires Freeables(s, user, freed, others) && freed != []
    ensures Freeables(FreedState(s, freed[0].0, user, |freed[0].1|), user, freed[1..], others)
    ensures Walks(freed[0].1, others) && FloorOrNew(s, freed[0].0).Release(user).Some?
  {
    hide Walks;
  }

  lemma ReportingMore(before: seq<Callback>, k: u16, floors: seq<u16>, user: u16)
    ensures before + [OnReleased(k, user)] + Reporting(floors, user) == before + Reporting([k] + floors, user)
  {
    assert ([k] + floors)[1..] == floors;
  }

  lemma {:induction false} GoodbyeTells(s: State, conf: u32, user: u16, freed: seq<(u16, seq<Addr>)>, others: set<Addr>)
    requires Freeables(s, user, freed, others)
    ensures var t, packets := GoodbyeState(s, user, freed), GoodbyeNotices(s, conf, user, freed);
            && t.callbacks == s.callbacks + Reporting(FloorsOf(freed), user) && t.sessions == s.sessions
            && TellsEach(s.sessions, packets, others, conf, s.ticks, user, FloorsOf(freed))
            && t.ticks == s.ticks + |packets|
    decreases freed
  {
    hide Notices, Notifies, TellsEach, Walks, Reporting, FloorOrNew;
    if freed == [] {
      TellsNobody(s, others, conf, user);
    } else {
      var (k, order) := freed[0];
      var next, first := FreedState(s, k, user, |order|), Notices(s, conf, order, s.ticks, user, k, 0);
      FreeablesLeft(s, user, freed, others);
      GoodbyeTells(next, conf, user, freed[1..], others);
      NoticesNotify(s, conf, order, s.ticks, user, k, 0);
      assert FloorsOf(freed) == [k] + FloorsOf(freed[1..]);
      TellsFirst(s.sessions, first, GoodbyeNotices(next, conf, user, freed[1..]), others, conf, s.ticks, user,
                 FloorsOf(freed), order);
      ReportingMore(s.callbacks, k, FloorsOf(freed[1..]), user);
    }
  }

  lemma TellsNobody(s: State, others: set<Addr>, conf: u32, user: u16)
    ensures TellsEach(s.sessions, [], others, conf, s.ticks, user, [])
    ensures s.callbacks + Reporting([], user) == s.callbacks
  {
  }

  /** A Goodbye frees its sender's floors one by one, in some order: each release is reported once and
      announced to every other session once, and the Goodbye is not answered. */
  lemma GoodbyeServed(s: State, addr: Addr, m: Msg, grant: bool, ch: Choice, conf: u32)
    requires m.primitive == GOODBYE && m.userID != 0 && Legal(s, addr, m, ch)
    ensures var t, packets := StateAfter(s, addr, m, grant, ch), NoticesAfter(s, addr, m, conf, ch);
            && Reply(s, addr, m, grant, ch) == None && t.ticks == s.ticks + |packets|
            && OnlyNoted(s, t.(floors := s.floors, ticks := s.ticks, callbacks := s.callbacks), addr, m.version)
            && exists floors: seq<u16> ::
                 && Walks(floors, set k | k in s.floors && s.floors[k].owner == m.userID)
                 && t.callbacks == s.callbacks + Reporting(floors, m.userID)
                 && TellsEach(t.sessions, packets, s.sessions.Keys - {addr}, conf, s.ticks, m.userID, floors)
  {
    hide GoodbyeState, GoodbyeNotices, TellsEach, Reporting, LegalOrders;
    var t := Touched(s, addr, m);
    TouchedNotes(s, addr, m);
    WalkedFloors(t, m.userID, ch.freed, t.sessions.Keys - {addr});
    GoodbyeTells(t, conf, m.userID, ch.freed, t.sessions.Keys - {addr});
    assert (set k | k in s.floors && s.floors[k].owner == m.userID) == Owned(t, m.userID);
  }

  lemma WalkedFloors(s: State, user: u16, freed: seq<(u16, seq<Addr>)>, others: set<Addr>)
    requires Walks(FloorsOf(freed), Owned(s, user)) && LegalOrders(freed, others)
    ensures Freeables(s, user, freed, others)
  {
    hide LegalOrders;
    forall i | 0 <= i < |freed| ensures freed[i].0 in s.floors && s.floors[freed[i].0].owner == user {
      assert FloorsOf(freed)[i] in FloorsOf(freed);
    }
  }

  /** Acknowledgements, errors and unknown primitives are only noted. */
  lemma OthersIgnored(s: State, addr: Addr, m: Msg, grant: bool, ch: Choice, conf: u32)
    requires m.primitive !in {HELLO, FLOOR_REQUEST, FLOOR_RELEASE, FLOOR_QUERY, GOODBYE}
    ensures OnlyNoted(s, StateAfter(s, addr, m, grant, ch), addr, m.version)
    ensures Reply(s, addr, m, grant, ch) == None && NoticesAfter(s, addr, m, conf, ch) == []
  {
    TouchedNotes(s, addr, m);
  }
}
