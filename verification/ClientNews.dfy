/** What a UDP client makes of the datagrams it gets: news about its own requests and about others',
    acknowledgements, and the answers to its requests and releases. */
module ClientNews {
  import opened Wrappers
  import opened Octets
  import opened Tlv
  import opened Messages
  import opened Grouped
  import opened UdpClient
  import opened Delivery

  // ----- one piece of news ------------------------------------------------

  predicate Ends(status: u8) {
    status == STATUS_DENIED || status == STATUS_CANCELLED || status == STATUS_RELEASED || status == STATUS_REVOKED
  }

  /** The request for `floor` has the status, or is forgotten if the status ends it; nothing else changes. */
  predicate Updated(before: map<u16, Active>, after: map<u16, Active>, floor: u16, status: u8) {
    && (forall k: u16 :: k != floor ==> (k in after <==> k in before) && (k in before ==> after[k] == before[k]))
    && (floor in after <==> floor in before && !Ends(status))
    && (floor in after ==> after[floor] == Active(before[floor].requestID, status))
  }

  /** The callback that goes with a status of an own request. */
  predicate Announces(reports: seq<Report>, floor: u16, requestID: u16, status: u8) {
    if status == STATUS_GRANTED then reports == [FloorGranted(floor, requestID)]
    else if status == STATUS_DENIED then reports == [FloorDenied(floor, requestID)]
    else if Ends(status) then reports == [FloorReleased(floor)]
    else reports == []
  }

  /** One acknowledgement, which carries the IDs of `m` and the R flag. */
  predicate Acknowledges(c: Client, d: Client, m: Msg) {
    && |d.sent| == |c.sent| + 1 && d.sent[..|c.sent|] == c.sent
    && var ack := d.sent[|c.sent|];
       && ack.primitive == (if m.primitive == FLOOR_REQUEST_STATUS then FLOOR_REQUEST_STATUS_ACK
                            else if m.primitive == FLOOR_STATUS then FLOOR_STATUS_ACK else GOODBYE_ACK)
       && ack.transactionID == m.transactionID && ack.conferenceID == m.conferenceID
       && ack.userID == c.config.userID && ack.version == c.config.version
       && ack.reserved == 16 && Flag(ack.reserved) && ack.attributes == []
  }

  /** What the client had reported, and then `reports`. */
  predicate Reports(c: Client, d: Client, reports: seq<Report>) {
    d.reports == c.reports + reports
  }

  /** Some message about one floor: who it names, and the status. */
  predicate Tells(m: Msg, info: FloorRequestInfo, floor: u16, status: u8) {
    && (m.primitive == FLOOR_REQUEST_STATUS || m.primitive == FLOOR_STATUS) && Infos(m.attributes) == [info]
    && |info.floors| == 1 && info.floors[0].floorID == floor
    && (if info.hasOverall then info.overallStatus == status
        else info.floors[0].hasStatus && info.floors[0].status == status)
  }

  /** The beneficiary, or the requester where no beneficiary is given. */
  predicate Names(info: FloorRequestInfo, user: u16) {
    if info.hasBeneficiary then info.beneficiaryID == user else info.hasRequestedBy && info.requestedByID == user
  }

  predicate NamesNobody(info: FloorRequestInfo) {
    !info.hasBeneficiary && !info.hasRequestedBy && info.beneficiaryID == 0
  }

  lemma ToldIsNoted(c: Client, m: Msg, info: FloorRequestInfo, floor: u16, status: u8)
    requires Tells(m, info, floor, status)
    ensures Notified(c, m) == NotedFloor(c, floor, info.floorRequestID, Beneficiary(info), status)
  {
    hide Infos, NotedFloor;
    var fl := info.floors[0];
    assert info.floors == [fl] && [fl][1..] == [] && [info][1..] == [];
    assert NotedFloors(c, info.floors, info.floorRequestID, Beneficiary(info), status)
        == NotedFloor(c, floor, info.floorRequestID, Beneficiary(info), status);
    assert NotedInfos(c, [info]) == NotedInfo(c, info);
  }

  lemma HandledAcks(c: Client, m: Msg)
    requires m.transactionID !in c.pending
    requires m.primitive == FLOOR_REQUEST_STATUS || m.primitive == FLOOR_STATUS || m.primitive == GOODBYE
    ensures Acknowledges(c, Handled(c, m), m)
    ensures var n := if m.primitive == GOODBYE then c else Notified(c, m);
            Handled(c, m).active == n.active && Handled(c, m).reports == n.reports
  {
    hide Notified;
    NotifiedKeeps(c, m);
    FlagSet();
  }

  lemma FlagSet()
    ensures WithFlag(0, true) == 16 && Flag(16)
  {
  }

  /** News about the request the client has for the floor: the request follows the status, whoever the
      news names, and the client's user is told. */
  lemma OwnNews(c: Client, m: Msg, info: FloorRequestInfo, floor: u16, status: u8)
    requires Tells(m, info, floor, status) && m.transactionID !in c.pending
    requires floor in c.active && c.active[floor].requestID == info.floorRequestID
    ensures var d := Handled(c, m);
            && Updated(c.active, d.active, floor, status) && Acknowledges(c, d, m)
            && (Holds(d, floor) <==> status == STATUS_GRANTED)
            && exists rs :: Reports(c, d, rs) && Announces(rs, floor, info.floorRequestID, status)
  {
    hide Notified, Handled;
    ToldIsNoted(c, m, info, floor, status);
    HandledAcks(c, m);
    assert Reports(c, Handled(c, m), Reported(floor, info.floorRequestID, status));
  }

  /** News that names the client's own user is its own even if it has no such request: one it has under
      another ID follows the status and keeps its ID. */
  lemma NewsForUser(c: Client, m: Msg, info: FloorRequestInfo, floor: u16, status: u8)
    requires Tells(m, info, floor, status) && m.transactionID !in c.pending
    requires Names(info, c.config.userID) && c.config.userID != 0
    ensures var d := Handled(c, m);
            && Updated(c.active, d.active, floor, status) && Acknowledges(c, d, m)
            && exists rs :: Reports(c, d, rs) && Announces(rs, floor, info.floorRequestID, status)
  {
    hide Notified, Handled;
    ToldIsNoted(c, m, info, floor, status);
    HandledAcks(c, m);
    assert Reports(c, Handled(c, m), Reported(floor, info.floorRequestID, status));
  }

  /** Any other news changes no request and is reported as the state of the floor, with whom it names. */
  lemma NewsOfOthers(c: Client, m: Msg, info: FloorRequestInfo, floor: u16, status: u8, user: u16)
    requires Tells(m, info, floor, status) && m.transactionID !in c.pending
    requires !(floor in c.active && c.active[floor].requestID == info.floorRequestID)
    requires if NamesNobody(info) then user == 0 else Names(info, user) && user != c.config.userID
    ensures var d := Handled(c, m);
            d.active == c.active && Acknowledges(c, d, m) && Reports(c, d, [FloorStatus(floor, user, status)])
  {
    hide Notified, Handled;
    ToldIsNoted(c, m, info, floor, status);
    HandledAcks(c, m);
  }

  /** The messages the server sends are such news, about one floor and nobody in particular. */
  lemma NewsTells(m: Msg, floor: u16, requestID: u16, status: u8)
    requires IsNews(m, floor, requestID, status)
    ensures Tells(m, TheInfo(requestID, status, floor), floor, status) && NamesNobody(TheInfo(requestID, status, floor))
  {
    hide Infos, Reading;
  }

  /** A notice of the server: the client has the floor afterwards exactly when it asked for it under that
      request ID and the status is Granted, or already had it and the news is about another request. */
  lemma ServerNews(c: Client, m: Msg, floor: u16, requestID: u16, status: u8)
    requires IsNews(m, floor, requestID, status) && m.transactionID !in c.pending
    ensures var d, own := Handled(c, m), floor in c.active && c.active[floor].requestID == requestID;
            && (Holds(d, floor) <==> if own then status == STATUS_GRANTED else Holds(c, floor))
            && (own && Ends(status) ==> floor !in d.active)
            && (!own ==> d.active == c.active && Reports(c, d, [FloorStatus(floor, 0, status)]))
            && (own ==> exists rs :: Reports(c, d, rs) && Announces(rs, floor, requestID, status))
  {
    hide Handled, IsNews, Tells;
    NewsTells(m, floor, requestID, status);
    var info := TheInfo(requestID, status, floor);
    if floor in c.active && c.active[floor].requestID == requestID {
      OwnNews(c, m, info, floor, status);
    } else {
      NewsOfOthers(c, m, info, floor, status, 0);
    }
  }

  // ----- any number of floors ---------------------------------------------

  /** The statuses a message gives floor `k`, in order. */
  function Statuses(infos: seq<FloorRequestInfo>, k: u16): seq<u8>
    decreases infos
  {
    if infos == [] then []
    else
      (match StatusOf(infos[0])
       case None => []
       case Some(status) => Repeated(status, Times(infos[0].floors, k))) + Statuses(infos[1..], k)
  }

  function Repeated(x: u8, n: nat): seq<u8> {
    if n == 0 then [] else [x] + Repeated(x, n - 1)
  }

  function Times(floors: seq<FloorRequestStatusInfo>, k: u16): nat {
    if floors == [] then 0 else (if floors[0].floorID == k then 1 else 0) + Times(floors[1..], k)
  }

  /** Whatever the message says about `k`, it says about request `r`. */
  predicate AllAbout(infos: seq<FloorRequestInfo>, k: u16, r: u16) {
    forall i :: 0 <= i < |infos| && Times(infos[i].floors, k) > 0 ==> infos[i].floorRequestID == r
  }

  /** A request after statuses one by one: gone once one of them ends it. */
  function Following(a: Option<Active>, statuses: seq<u8>): Option<Active>
    decreases statuses
  {
    match a
    case None => None
    case Some(x) =>
      if statuses == [] then a
      else Following(if Ends(statuses[0]) then None else Some(Active(x.requestID, statuses[0])), statuses[1..])
  }

  function At(c: Client, k: u16): Option<Active> {
    if k in c.active then Some(c.active[k]) else None
  }

  predicate MayBe(a: Option<Active>, r: u16) {
    a.Some? ==> a.value.requestID == r
  }

  lemma {:induction false} FollowingKeeps(a: Option<Active>, statuses: seq<u8>, r: u16)
    requires MayBe(a, r)
    ensures MayBe(Following(a, statuses), r)
    decreases statuses
  {
    if a.Some? && statuses != [] {
      FollowingKeeps(if Ends(statuses[0]) then None else Some(Active(r, statuses[0])), statuses[1..], r);
    }
  }

  lemma {:induction false} FollowingMore(a: Option<Active>, ss: seq<u8>, more: seq<u8>)
    ensures Following(Following(a, ss), more) == Following(a, ss + more)
    decreases ss
  {
    if ss == [] {
      assert ss + more == more;
    } else if a.Some? {
      assert (ss + more)[1..] == ss[1..] + more;
      FollowingMore(if Ends(ss[0]) then None else Some(Active(a.value.requestID, ss[0])), ss[1..], more);
    }
  }

  lemma {:induction false} FloorsFollowed(c: Client, floors: seq<FloorRequestStatusInfo>, id: u16, whom: u16,
                                          status: u8,
                                          k: u16, r: u16)
    requires MayBe(At(c, k), r) && (Times(floors, k) > 0 ==> id == r)
    ensures At(NotedFloors(c, floors, id, whom, status), k) == Following(At(c, k), Repeated(status, Times(floors, k)))
    decreases floors
  {
    if floors != [] {
      var d := NotedFloor(c, floors[0].floorID, id, whom, status);
      FloorsFollowed(d, floors[1..], id, whom, status, k, r);
      if floors[0].floorID == k {
        assert Repeated(status, Times(floors, k))[1..] == Repeated(status, Times(floors[1..], k));
      }
    }
  }

  /** However many floors a message is about: a request that the message only mentions by its own ID is
      forgotten exactly when one of the statuses given to its floor ends it, and has the last of them
      otherwise; a floor the client has no request for gets none. */
  lemma {:induction false} InfosFollowed(c: Client, infos: seq<FloorRequestInfo>, k: u16, r: u16)
    requires MayBe(At(c, k), r) && AllAbout(infos, k, r)
    ensures At(NotedInfos(c, infos), k) == Following(At(c, k), Statuses(infos, k))
    decreases infos
  {
    hide NotedFloors, Repeated, Times;
    if infos != [] {
      var d := NotedInfo(c, infos[0]);
      if StatusOf(infos[0]).Some? {
        var said := Repeated(StatusOf(infos[0]).value, Times(infos[0].floors, k));
        FloorsFollowed(c, infos[0].floors, infos[0].floorRequestID, Beneficiary(infos[0]), StatusOf(infos[0]).value, k,
                       r);
        FollowingKeeps(At(c, k), said, r);
        FollowingMore(At(c, k), said, Statuses(infos[1..], k));
      } else {
        assert [] + Statuses(infos[1..], k) == Statuses(infos[1..], k);
      }
      InfosFollowed(d, infos[1..], k, r);
    }
  }

  lemma {:induction false} FollowingIs(a: Option<Active>, ss: seq<u8>)
    ensures var f := Following(a, ss);
            && (f.None? <==> a.None? || exists i :: 0 <= i < |ss| && Ends(ss[i]))
            && (f.Some? ==> f.value == if ss == [] then a.value else Active(a.value.requestID, ss[|ss| - 1]))
    decreases ss
  {
    if a.Some? && ss != [] {
      FollowingIs(if Ends(ss[0]) then None else Some(Active(a.value.requestID, ss[0])), ss[1..]);
      assert forall i :: 0 < i < |ss| ==> ss[i] == ss[1..][i - 1];
    }
  }

  lemma AnyNews(c: Client, m: Msg, k: u16, r: u16)
    requires m.primitive == FLOOR_REQUEST_STATUS || m.primitive == FLOOR_STATUS
    requires m.transactionID !in c.pending && AllAbout(Infos(m.attributes), k, r)
    requires k in c.active ==> c.active[k].requestID == r
    ensures var d, ss := Handled(c, m), Statuses(Infos(m.attributes), k);
            && (k in d.active <==> k in c.active && forall i :: 0 <= i < |ss| ==> !Ends(ss[i]))
            && (k in d.active ==>
                  d.active[k] == Active(r, if ss == [] then c.active[k].status else ss[|ss| - 1]))
  {
    hide Infos, NotedInfos, Statuses, Following, FloorIDOf, Handled;
    var infos := Infos(m.attributes);
    HandledAcks(c, m);
    InfosFollowed(c, infos, k, r);
    FollowingIs(At(c, k), Statuses(infos, k));
    if infos == [] {
      NoInfos(c, k);
    }
  }

  lemma NoInfos(c: Client, k: u16)
    ensures NotedInfos(c, []) == c && Statuses([], k) == []
  {
  }

  // ----- other datagrams --------------------------------------------------

  /** A FloorStatus without request information reports the floor, an Error itself; a Goodbye is only
      acknowledged, and whatever else comes outside a transaction is ignored. */
  lemma OtherDatagrams(c: Client, m: Msg)
    requires m.transactionID !in c.pending
    ensures var d := Handled(c, m);
            && (m.primitive == FLOOR_STATUS && Infos(m.attributes) == [] && FloorIDOf(m).Some? ==>
                  d.active == c.active && Acknowledges(c, d, m)
                  && Reports(c, d, [FloorStatus(FloorIDOf(m).value, 0, STATUS_RELEASED)]))
            && (m.primitive == GOODBYE ==> d.active == c.active && d.reports == c.reports && Acknowledges(c, d, m))
            && (m.primitive == ERROR ==> d == c.(reports := c.reports + [ErrorReceived(m)]))
            && (m.primitive !in {FLOOR_REQUEST_STATUS, FLOOR_STATUS, GOODBYE, ERROR} ==> d == c)
  {
    hide Infos, FloorIDOf;
    if m.primitive == FLOOR_STATUS || m.primitive == GOODBYE {
      HandledAcks(c, m);
    }
  }

  // ----- what a request and a release come to ------------------------------

  /** A request that gets no answer, or the wrong one, fails for that reason and changes no request; one
      that succeeds lists the floor under the ID and status it read, or drops it if the status ends the
      request, and its user is told. */
  lemma RequestComesTo(c: Client, floor: u16, env: nat -> Attempt)
    requires !c.closed
    ensures var (e, result), m := RequestOutcome(c, floor, env), RequestMsg(c, floor);
            var d, x := Transacted(Numbered(c), m, env).0, Deciding(env, c.config.maxRetries, m.transactionID);
            && (x.None? ==> e == d && result.Failure?)
            && (x.Some? ==>
                  var id, status := FloorRequestIDOf(x.value), RequestStatusOf(x.value);
                  if x.value.primitive == ERROR then e == d && result == Failure(ServerError(x.value))
                  else if x.value.primitive != FLOOR_REQUEST_STATUS then
                    e == d && result == Failure(Unexpected(x.value.primitive))
                  else if id.None? then e == d && result == Failure(MissingRequestID)
                  else if status.None? then e == d && result == Failure(MissingStatus)
                  else
                    && result == Success(id.value)
                    && Updated(d.active[floor := Active(id.value, 0)], e.active, floor, status.value.0)
                    && exists rs :: Reports(d, e, rs) && Announces(rs, floor, id.value, status.value.0))
  {
    hide Transacted, Deciding, FloorRequestIDOf, RequestStatusOf;
    var m := RequestMsg(c, floor);
    TransactionDecided(Numbered(c), m, env);
    var d, x := Transacted(Numbered(c), m, env).0, Deciding(env, c.config.maxRetries, m.transactionID);
    if x.Some? && x.value.primitive == FLOOR_REQUEST_STATUS && FloorRequestIDOf(x.value).Some?
      && RequestStatusOf(x.value).Some? {
      var e := RequestOutcome(c, floor, env).0;
      assert Reports(d, e, Reported(floor, FloorRequestIDOf(x.value).value, RequestStatusOf(x.value).value.0));
    }
  }

  /** A release needs a request; it succeeds with whatever comes first but an Error, and only then forgets
      the request and tells its user. */
  lemma ReleaseComesTo(c: Client, floor: u16, env: nat -> Attempt)
    requires !c.closed
    ensures var (e, result) := ReleaseOutcome(c, floor, env);
            if floor !in c.active then e == c && result == Failure(NoActiveRequest)
            else
              var m := ReleaseMsg(c, c.active[floor].requestID);
              var d, x := Transacted(Numbered(c), m, env).0, Deciding(env, c.config.maxRetries, m.transactionID);
              && (x.None? ==> e == d && result.Failure?)
              && (x.Some? && x.value.primitive == ERROR ==> e == d && result == Failure(ServerError(x.value)))
              && (x.Some? && x.value.primitive != ERROR ==>
                    && result == Success(()) && Updated(d.active, e.active, floor, STATUS_RELEASED)
                    && Reports(d, e, [FloorReleased(floor)]))
  {
    hide Transacted, Deciding;
    if floor in c.active {
      TransactionDecided(Numbered(c), ReleaseMsg(c, c.active[floor].requestID), env);
    }
  }

  /** A closed client does nothing but fail. */
  lemma ClosedClient(c: Client, floor: u16, env: nat -> Attempt)
    requires c.closed
    ensures RequestOutcome(c, floor, env) == (Numbered(c), Failure(ClientClosed))
    ensures floor in c.active ==> ReleaseOutcome(c, floor, env) == (Numbered(c), Failure(ClientClosed))
    ensures Numbered(c) == c.(nextTxID := Numbered(c).nextTxID)
  {
  }
}
