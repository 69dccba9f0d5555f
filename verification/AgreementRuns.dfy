/** What holds between clients and server over whole runs, and runs that show what may happen. */
module AgreementRuns {
  import opened Wrappers
  import opened Octets
  import opened Messages
  import opened Grouped
  import opened FloorState
  import FS = FloorServer
  import opened UdpClient
  import opened Delivery
  import opened Agreement
  import ServerSafety

  /** No floor granted, no request active; the clients' users are distinct because they are keys. */
  ghost predicate Initial(w: World) {
    && w.server == ServerSafety.START && w.notices == [] && w.answers == []
    && (forall u <- w.clients :: Ready(w.clients[u], u) && w.clients[u].active == map[])
  }

  ghost predicate IsRun(worlds: seq<World>, events: seq<Event>) {
    && |worlds| == |events| + 1 && Initial(worlds[0])
    && (forall i :: 0 <= i < |events| ==> Next(worlds[i], events[i], worlds[i + 1]))
    && (forall i :: 0 <= i < |worlds| ==> Within(worlds[i]))
  }

  lemma InitialAgreed(w: World)
    requires Initial(w)
    ensures Agreed(w, {})
  {
  }

  /** The floors lost in the first `n` events. */
  ghost function LostBy(worlds: seq<World>, events: seq<Event>, n: nat): set<(u16, u16)>
    requires |worlds| == |events| + 1 && n <= |events|
  {
    if n == 0 then {} else LostAfter(LostBy(worlds, events, n - 1), worlds[n - 1], events[n - 1], worlds[n])
  }

  lemma LostOnce(lost: set<(u16, u16)>, w: World, e: Event, v: World, u: u16, floor: u16)
    ensures (u, floor) in LostAfter(lost, w, e, v) <==> (u, floor) in lost || Loses(w, e, v, u, floor)
  {
  }

  lemma {:induction false} LostMeans(worlds: seq<World>, events: seq<Event>, n: nat, u: u16, floor: u16)
    requires |worlds| == |events| + 1 && n <= |events|
    ensures (u, floor) in LostBy(worlds, events, n)
       <==> exists i :: 0 <= i < n && Loses(worlds[i], events[i], worlds[i + 1], u, floor)
  {
    hide Mistook, GrantedTo;
    if n > 0 {
      LostMeans(worlds, events, n - 1, u, floor);
      var w, e, v := worlds[n - 1], events[n - 1], worlds[n];
      LostOnce(LostBy(worlds, events, n - 1), w, e, v, u, floor);
    }
  }

  lemma {:induction false} RunAgreed(worlds: seq<World>, events: seq<Event>, n: nat)
    requires IsRun(worlds, events) && n <= |events|
    ensures Agreed(worlds[n], LostBy(worlds, events, n))
  {
    hide Agreed, Next, Initial, LostAfter, Within;
    if n == 0 {
      InitialAgreed(worlds[0]);
    } else {
      RunAgreed(worlds, events, n - 1);
      StepKeepsAgreement(worlds[n - 1], LostBy(worlds, events, n - 1), events[n - 1], worlds[n]);
    }
  }

  /** Over every run of completed transactions, with notices and answers delivered late, repeatedly and
      in any order: a client has a floor exactly when the server has granted it that floor and the client
      has not taken a notice for the answer to a request for it, then granted. */
  lemma ClientServerAgreement(worlds: seq<World>, events: seq<Event>, n: nat, u: u16, floor: u16)
    requires IsRun(worlds, events) && n <= |events| && u in worlds[n].clients
    ensures Holds(worlds[n].clients[u], floor) <==>
              && GrantedTo(worlds[n].server, u, floor)
              && !exists i :: 0 <= i < n && Loses(worlds[i], events[i], worlds[i + 1], u, floor)
  {
    hide Next, Agreed, Loses, Initial;
    RunAgreed(worlds, events, n);
    LostMeans(worlds, events, n, u, floor);
    AgreedReady(worlds[n], LostBy(worlds, events, n), u, floor);
  }

  /** Hence two clients never have the same floor. */
  lemma NoTwoHolders(worlds: seq<World>, events: seq<Event>, n: nat, u: u16, v: u16, floor: u16)
    requires IsRun(worlds, events) && n <= |events| && u in worlds[n].clients && v in worlds[n].clients
    requires Holds(worlds[n].clients[u], floor) && Holds(worlds[n].clients[v], floor)
    ensures u == v
  {
    hide IsRun, Loses;
    ClientServerAgreement(worlds, events, n, u, floor);
    ClientServerAgreement(worlds, events, n, v, floor);
  }

  /** The client does not forget its requests when it says goodbye, though the server frees its floors:
      they still agree afterwards exactly when the client held none. */
  lemma AgreementAfterGoodbye(w: World, lost: set<(u16, u16)>, u: u16, addr: FS.Addr, m: Msg, grant: bool,
                              ch: FS.Choice)
    requires Agreed(w, lost) && u in w.clients && m.primitive == GOODBYE && m.userID == u
    requires FS.Legal(w.server, addr, m, ch)
    ensures var t, c := FS.StateAfter(w.server, addr, m, grant, ch), w.clients[u];
            (forall k: u16 :: Holds(c, k) <==> GrantedTo(t, u, k)) <==> (forall k: u16 :: !Holds(c, k))
  {
    var t, c := FS.StateAfter(w.server, addr, m, grant, ch), w.clients[u];
    hide FS.StateAfter, FS.Legal, Agreed;
    ServerSafety.GoodbyeFreesAll(w.server, addr, m, grant, ch);
    AgreedReady(w, lost, u, 0);
    forall k: u16 ensures !GrantedTo(t, u, k) {
    }
  }

  // ----- such runs exist --------------------------------------------------

  const NOTHING: FS.Choice := FS.Choice(None, None, [], [])

  function AtOnce(ds: seq<Msg>): nat -> Attempt {
    (i: nat) => Wait(ds, false)
  }

  lemma AnsweredAtOnce(c: Client, m: Msg, ds: seq<Msg>)
    requires !c.closed && c.config.maxRetries > 0 && !IsAck(m.primitive)
    requires ds != [] && ds[0].transactionID == m.transactionID
    ensures Transacted(c, m, AtOnce(ds)).1 == Success(ds[0])
    ensures Deciding(AtOnce(ds), c.config.maxRetries, m.transactionID) == Some(ds[0])
  {
    hide Transacted, Copies;
    TransactionOutcome(c, m, AtOnce(ds));
    assert AtOnce(ds)(1).datagrams[0] == ds[0];
  }

  /** What the server answers a request. */
  ghost function AskedAnswer(w: World, u: u16, floor: u16, addr: FS.Addr): Msg
    requires u in w.clients
  {
    var reply := FS.Reply(w.server, addr, RequestAt(w.clients[u], floor), true, NOTHING);
    if reply.Some? then Received(reply.value) else NewMsg(0, 0, 0, 0)
  }

  /** A request that the server gets and grants if it can, the client seeing `ds` at once. */
  function Asking(u: u16, floor: u16, addr: FS.Addr, ds: seq<Msg>): Event {
    FloorAsked(u, floor, addr, true, NOTHING, AtOnce(ds))
  }

  ghost function Asked(w: World, u: u16, floor: u16, addr: FS.Addr, ds: seq<Msg>): World
    requires u in w.clients
  {
    var c := w.clients[u];
    World(w.conferenceID, FS.StateAfter(w.server, addr, RequestAt(c, floor), true, NOTHING),
          w.clients[u := RequestOutcome(c, floor, AtOnce(ds)).0], w.notices,
          w.answers + [(u, AskedAnswer(w, u, floor, addr))])
  }

  /** The datagrams the client sees: the first one ends the transaction. */
  ghost predicate Askable(w: World, u: u16, floor: u16, addr: FS.Addr, ds: seq<Msg>) {
    && u in w.clients && w.clients[u].config.maxRetries > 0
    && w.server.ticks + 1 < 0x1_0000 && w.clients[u].nextTxID + 1 < 0x1_0000
    && ds != [] && ds[0].transactionID == w.clients[u].nextTxID + 1
    && forall j :: 0 <= j < |ds| ==> ds[j] == AskedAnswer(w, u, floor, addr) || MayArrive(w, u, ds[j])
  }

  lemma CountsOn(c: Client)
    requires c.nextTxID + 1 < 0x1_0000
    ensures Numbered(c).nextTxID == c.nextTxID + 1 && TransactionID(Numbered(c).nextTxID) == c.nextTxID + 1
  {
    LowMod(Bump(c.nextTxID), 0x1_0000);
  }

  lemma AskedAnswerIs(w: World, lost: set<(u16, u16)>, u: u16, floor: u16, addr: FS.Addr)
    requires Agreed(w, lost) && u in w.clients && w.server.ticks + 1 < 0x1_0000
    ensures FS.Reply(w.server, addr, RequestAt(w.clients[u], floor), true, NOTHING).Some?
    ensures AskedAnswer(w, u, floor, addr).transactionID == RequestMsg(w.clients[u], floor).transactionID
    ensures FS.StateAfter(w.server, addr, RequestAt(w.clients[u], floor), true, NOTHING).ticks == w.server.ticks + 1
  {
    AgreedReady(w, lost, u, floor);
    hide Received, FS.StateAfter, FS.Reply, Answered, FloorIDOf;
    RequestArrives(w.clients[u], floor);
    AskedServer(w.server, addr, RequestAt(w.clients[u], floor), true, NOTHING, floor);
  }

  lemma AskingSucceeds(w: World, lost: set<(u16, u16)>, u: u16, floor: u16, addr: FS.Addr, ds: seq<Msg>)
    requires Agreed(w, lost) && Askable(w, u, floor, addr, ds)
    ensures Completes(w, u, Numbered(w.clients[u]), RequestMsg(w.clients[u], floor), AtOnce(ds),
                      AskedAnswer(w, u, floor, addr))
    ensures Mistook(w, Asking(u, floor, addr, ds)) <==> ds[0] != AskedAnswer(w, u, floor, addr)
    ensures RequestOutcome(w.clients[u], floor, AtOnce(ds)).1 == RequestAnswered(w.clients[u], floor, ds[0]).1
  {
    var c := w.clients[u];
    AgreedReady(w, lost, u, floor);
    AskedAnswerIs(w, lost, u, floor, addr);
    CountsOn(c);
    AnsweredAtOnce(Numbered(c), RequestMsg(c, floor), ds);
    AnswerDepends(Transacted(Numbered(c), RequestMsg(c, floor), AtOnce(ds)).0, c, floor, ds[0]);
    hide Received, FS.Reply, Transacted, Agreed, RequestAnswered, MayArrive, Deciding, FS.StateAfter;
  }

  /** The result of a request depends on the answer alone. */
  lemma AnswerDepends(c: Client, d: Client, floor: u16, m: Msg)
    ensures RequestAnswered(c, floor, m).1 == RequestAnswered(d, floor, m).1
  {
    hide FloorRequestIDOf, RequestStatusOf;
  }

  lemma AskingIsNext(w: World, lost: set<(u16, u16)>, u: u16, floor: u16, addr: FS.Addr, ds: seq<Msg>)
    requires Agreed(w, lost) && Within(w) && Askable(w, u, floor, addr, ds)
    ensures Next(w, Asking(u, floor, addr, ds), Asked(w, u, floor, addr, ds)) && Within(Asked(w, u, floor, addr, ds))
  {
    var s, c, v := w.server, w.clients[u], Asked(w, u, floor, addr, ds);
    AskingSucceeds(w, lost, u, floor, addr, ds);
    AskedAnswerIs(w, lost, u, floor, addr);
    CountsOn(c);
    OutcomeNumbers(c, floor, AtOnce(ds));
    RequestArrives(c, floor);
    AskedNotices(s, addr, RequestAt(c, floor), w.conferenceID, NOTHING, w.notices);
    hide Received, FS.StateAfter, FS.Reply, FS.NoticesAfter, RequestOutcome, Agreed, FloorIDOf, Completes, RequestMsg,
         Askable;
    assert Transaction(w, v, u, RequestMsg(c, floor), addr, true, NOTHING, AtOnce(ds));
  }

  /** What a request for a free floor does to the server. */
  lemma GrantedFloors(s: FS.State, addr: FS.Addr, m: Msg, floor: u16)
    requires m.primitive == FLOOR_REQUEST && FloorIDOf(m) == Some(floor) && s.ticks + 1 < 0x1_0000
    requires FS.FloorOrNew(s, floor).status.Released? && Speaking(s) && Speaks(m.version)
    ensures var t := FS.StateAfter(s, addr, m, true, NOTHING);
            && GrantedTo(t, m.userID, floor) && t.ticks == s.ticks + 1 && t.sessions.Keys == s.sessions.Keys
            && forall k: u16 :: k != floor ==> FS.FloorOrNew(t, k) == FS.FloorOrNew(s, k)
  {
    hide FS.StateAfter, FS.Reply, FloorIDOf, FS.StatusReply;
    RequestEffect(s, addr, m, true, NOTHING, floor);
    SessionsStaySpeaking(s, addr, m, true, NOTHING);
  }

  lemma AskedGrants(w: World, lost: set<(u16, u16)>, u: u16, floor: u16, addr: FS.Addr, ds: seq<Msg>)
    requires Agreed(w, lost) && Within(w) && Askable(w, u, floor, addr, ds)
    requires FS.FloorOrNew(w.server, floor).status.Released?
    ensures var t := Asked(w, u, floor, addr, ds).server;
            && GrantedTo(t, u, floor) && t.ticks == w.server.ticks + 1 && t.sessions.Keys == w.server.sessions.Keys
            && forall k: u16 :: k != floor ==> FS.FloorOrNew(t, k) == FS.FloorOrNew(w.server, k)
  {
    AgreedReady(w, lost, u, floor);
    AgreedIDs(w, lost, floor);
    RequestArrives(w.clients[u], floor);
    hide FS.StateAfter, FloorIDOf, RequestOutcome, Agreed, Speaking;
    GrantedFloors(w.server, addr, RequestAt(w.clients[u], floor), floor);
  }

  lemma AskedClients(w: World, u: u16, floor: u16, addr: FS.Addr, ds: seq<Msg>)
    requires u in w.clients
    ensures Asked(w, u, floor, addr, ds).clients.Keys == w.clients.Keys
  {
  }

  /** The server grants the free floor; the client has it exactly when the answer comes first. */
  lemma AskedFree(w: World, lost: set<(u16, u16)>, u: u16, floor: u16, addr: FS.Addr, ds: seq<Msg>)
    requires Agreed(w, lost) && Within(w) && Askable(w, u, floor, addr, ds)
    requires FS.FloorOrNew(w.server, floor).status.Released?
    ensures var e, v := Asking(u, floor, addr, ds), Asked(w, u, floor, addr, ds);
            && Next(w, e, v) && Within(v) && v.clients.Keys == w.clients.Keys && GrantedTo(v.server, u, floor)
            && (Mistook(w, e) <==> ds[0] != AskedAnswer(w, u, floor, addr))
            && (Holds(v.clients[u], floor) <==> ds[0] == AskedAnswer(w, u, floor, addr))
  {
    hide Agreed, Within, FS.FloorOrNew, FS.StateAfter, Next, GrantedTo, Mistook, Holds, AskedAnswer, Asked,
         RequestOutcome;
    AskedClients(w, u, floor, addr, ds);
    AskingIsNext(w, lost, u, floor, addr, ds);
    AskingSucceeds(w, lost, u, floor, addr, ds);
    AskedGrants(w, lost, u, floor, addr, ds);
    NotLost(w, lost, u, floor);
    AgreementAfterRequest(w, lost, Asking(u, floor, addr, ds), Asked(w, u, floor, addr, ds));
  }

  lemma NotLost(w: World, lost: set<(u16, u16)>, u: u16, floor: u16)
    requires Agreed(w, lost) && u in w.clients && FS.FloorOrNew(w.server, floor).status.Released?
    ensures (u, floor) !in lost
  {
    hide Agreed;
    AgreedReady(w, lost, u, floor);
  }

  /** Not the last number of the server, nor of the client. */
  ghost predicate MayAsk(w: World, u: u16) {
    && u in w.clients && w.clients[u].config.maxRetries > 0
    && w.server.ticks + 1 < 0x1_0000 && w.clients[u].nextTxID + 1 < 0x1_0000
  }

  lemma AnswerAskable(w: World, lost: set<(u16, u16)>, u: u16, floor: u16, addr: FS.Addr)
    requires Agreed(w, lost) && MayAsk(w, u)
    ensures Askable(w, u, floor, addr, [AskedAnswer(w, u, floor, addr)])
  {
    hide Agreed, AskedAnswer, FS.StateAfter, FS.Reply;
    AskedAnswerIs(w, lost, u, floor, addr);
    CountsOn(w.clients[u]);
  }

  /** A request for a free floor, answered at once, gives the client the floor. */
  lemma GrantReachesClient(w: World, lost: set<(u16, u16)>, u: u16, floor: u16, addr: FS.Addr)
    returns (e: Event, v: World)
    requires Agreed(w, lost) && Within(w) && MayAsk(w, u) && FS.FloorOrNew(w.server, floor).status.Released?
    ensures e.FloorAsked? && e.user == u && e.floor == floor
    ensures Next(w, e, v) && Within(v) && !Mistook(w, e)
    ensures u in v.clients && Holds(v.clients[u], floor) && GrantedTo(v.server, u, floor)
    ensures v == Asked(w, u, floor, addr, [AskedAnswer(w, u, floor, addr)])
  {
    hide Agreed, Within, FS.FloorOrNew, Next, GrantedTo, Mistook, Holds, AskedAnswer, Asked, Askable;
    var ds := [AskedAnswer(w, u, floor, addr)];
    AnswerAskable(w, lost, u, floor, addr);
    AskedFree(w, lost, u, floor, addr, ds);
    e, v := Asking(u, floor, addr, ds), Asked(w, u, floor, addr, ds);
  }

  /** When an earlier notice carries the ID of the next request and arrives first, the server grants a
      free floor, but the client reports success under the other request's ID and does not have it. */
  lemma NoticeLosesGrant(w: World, lost: set<(u16, u16)>, u: u16, floor: u16, addr: FS.Addr, i: nat)
    returns (e: Event, v: World)
    requires Agreed(w, lost) && Within(w) && MayAsk(w, u) && FS.FloorOrNew(w.server, floor).status.Released?
    requires i < |w.notices| && w.notices[i].transactionID == w.clients[u].nextTxID + 1
    ensures e.FloorAsked? && e.user == u && e.floor == floor
    ensures Next(w, e, v) && Within(v) && Loses(w, e, v, u, floor)
    ensures u in v.clients && !Holds(v.clients[u], floor) && GrantedTo(v.server, u, floor)
    ensures exists r: u16, other: u16 ::
              && IsNews(w.notices[i], other, r, STATUS_RELEASED)
              && RequestOutcome(w.clients[u], floor, e.env).1 == Success(r)
  {
    hide Agreed, Within, FS.FloorOrNew, Next, GrantedTo, Mistook, Holds, AskedAnswer, Asked, IsNews, RequestOutcome,
         RequestAnswered;
    var ds := [w.notices[i]];
    assert Askable(w, u, floor, addr, ds);
    AskedFree(w, lost, u, floor, addr, ds);
    AskingSucceeds(w, lost, u, floor, addr, ds);
    NoticeIsNoGrant(w, lost, u, floor, addr, i);
    e, v := Asking(u, floor, addr, ds), Asked(w, u, floor, addr, ds);
  }

  /** The notice and the answer differ, and the client reads the notice's request ID. */
  lemma NoticeIsNoGrant(w: World, lost: set<(u16, u16)>, u: u16, floor: u16, addr: FS.Addr, i: nat)
    requires Agreed(w, lost) && u in w.clients && w.server.ticks + 1 < 0x1_0000 && i < |w.notices|
    requires FS.FloorOrNew(w.server, floor).status.Released?
    ensures w.notices[i] != AskedAnswer(w, u, floor, addr)
    ensures exists r: u16, other: u16 ::
              && IsNews(w.notices[i], other, r, STATUS_RELEASED)
              && RequestAnswered(w.clients[u], floor, w.notices[i]).1 == Success(r)
  {
    var n := w.notices[i];
    assert MailOK(w.server, w.notices, w.answers) && IsNotice(n);
    AskedIsGranted(w, lost, u, floor, addr);
    hide AskedAnswer, Agreed, RequestAnswered, IsNews;
    NewsDiffers(n, AskedAnswer(w, u, floor, addr), floor, (w.server.ticks + 1) as u16);
    var other: u16, r: u16 :| IsNews(n, other, r, STATUS_RELEASED);
    AnswerRead(w.clients[u], floor, n, other, r, STATUS_RELEASED);
  }

  lemma NewsDiffers(m: Msg, n: Msg, k: u16, r: u16)
    requires IsNotice(m) && IsNews(n, k, r, STATUS_GRANTED)
    ensures m != n
  {
    hide Infos;
  }

  lemma AskedIsGranted(w: World, lost: set<(u16, u16)>, u: u16, floor: u16, addr: FS.Addr)
    requires Agreed(w, lost) && u in w.clients && w.server.ticks + 1 < 0x1_0000
    requires FS.FloorOrNew(w.server, floor).status.Released?
    ensures IsNews(AskedAnswer(w, u, floor, addr), floor, (w.server.ticks + 1) as u16, STATUS_GRANTED)
  {
    AgreedReady(w, lost, u, floor);
    RequestArrives(w.clients[u], floor);
    hide Received, FS.StateAfter, FS.Reply, IsNews, FloorIDOf, Agreed, FS.FloorOrNew, Agrees, Drawn;
    GrantAnswered(w.server, addr, RequestAt(w.clients[u], floor), floor);
  }

  lemma GrantAnswered(s: FS.State, addr: FS.Addr, m: Msg, floor: u16)
    requires m.primitive == FLOOR_REQUEST && FloorIDOf(m) == Some(floor) && Speaks(m.version) && s.ticks + 1 < 0x1_0000
    requires FS.FloorOrNew(s, floor).status.Released?
    ensures var reply := FS.Reply(s, addr, m, true, NOTHING);
            reply.Some? && IsNews(Received(reply.value), floor, (s.ticks + 1) as u16, STATUS_GRANTED)
  {
    hide Received, FS.StateAfter, FS.Reply, IsNews, FloorIDOf, FS.StatusReply, FS.Refused;
    RequestEffect(s, addr, m, true, NOTHING, floor);
    StatusArrives(m, floor, (s.ticks + 1) as u16, Granted);
  }

  // ----- and releases -----------------------------------------------------

  /** Any set can be walked. */
  lemma {:induction false} SomeWalk<T(!new)>(all: set<T>) returns (order: seq<T>)
    ensures FS.Walks(order, all) && |order| == |all|
    decreases |all|
  {
    if all == {} {
      order := [];
    } else {
      var x :| x in all;
      var rest := SomeWalk(all - {x});
      order := [x] + rest;
      assert forall y :: y in order <==> y == x || y in rest;
      assert forall i :: 0 < i < |order| ==> order[i] == rest[i - 1] && rest[i - 1] in rest;
    }
  }

  lemma ReleaseChoice(s: FS.State, addr: FS.Addr, m: Msg, floor: u16, r: u16) returns (ch: FS.Choice)
    requires m.primitive == FLOOR_RELEASE && FloorIDOf(m) == None && FloorRequestIDOf(m) == Some(r)
    requires floor in s.floors && s.floors[floor].requestID == r
    ensures FS.Legal(s, addr, m, ch) && |ch.order| == |s.sessions.Keys - {addr}|
  {
    var order := SomeWalk(FS.Touched(s, addr, m).sessions.Keys - {addr});
    assert FS.Touched(s, addr, m).sessions.Keys == s.sessions.Keys;
    ch := FS.Choice(Some(floor), None, order, []);
  }

  ghost function ReleaseDatagram(w: World, u: u16, floor: u16): Msg
    requires u in w.clients && floor in w.clients[u].active
  {
    ReleaseAt(w.clients[u], w.clients[u].active[floor].requestID)
  }

  ghost function ReleasedAnswer(w: World, u: u16, floor: u16, addr: FS.Addr, ch: FS.Choice): Msg
    requires u in w.clients && floor in w.clients[u].active
  {
    var reply := FS.Reply(w.server, addr, ReleaseDatagram(w, u, floor), false, ch);
    if reply.Some? then Received(reply.value) else NewMsg(0, 0, 0, 0)
  }

  ghost function Releasing(w: World, u: u16, floor: u16, addr: FS.Addr, ch: FS.Choice): Event
    requires u in w.clients && floor in w.clients[u].active
  {
    FloorGivenUp(u, floor, addr, false, ch, AtOnce([ReleasedAnswer(w, u, floor, addr, ch)]))
  }

  ghost function Released(w: World, u: u16, floor: u16, addr: FS.Addr, ch: FS.Choice): World
    requires u in w.clients && floor in w.clients[u].active
  {
    var c, m := w.clients[u], ReleaseDatagram(w, u, floor);
    var answer := ReleasedAnswer(w, u, floor, addr, ch);
    World(w.conferenceID, FS.StateAfter(w.server, addr, m, false, ch),
          w.clients[u := ReleaseOutcome(c, floor, AtOnce([answer])).0],
          w.notices + AllReceived(FS.NoticesAfter(w.server, addr, m, w.conferenceID, ch)), w.answers + [(u, answer)])
  }

  /** What the server does with a release of a floor the client has. */
  ghost predicate Served(w: World, u: u16, floor: u16, addr: FS.Addr, ch: FS.Choice)
    requires u in w.clients && floor in w.clients[u].active
  {
    var s, m := w.server, ReleaseDatagram(w, u, floor);
    var t, reply := FS.StateAfter(s, addr, m, false, ch), FS.Reply(s, addr, m, false, ch);
    var ms := AllReceived(FS.NoticesAfter(s, addr, m, w.conferenceID, ch));
    && FS.Legal(s, addr, m, ch) && reply.Some?
    && ReleasedAnswer(w, u, floor, addr, ch).transactionID == TransactionID(Numbered(w.clients[u]).nextTxID)
    && t.floors == s.floors[floor := NewFloor()] && t.sessions.Keys == s.sessions.Keys
    && |ms| == |s.sessions.Keys - {addr}| && t.ticks == s.ticks + |ms|
    && (ms != [] ==> ms[0].transactionID == FS.ID(s.ticks + 1))
  }

  lemma ReleaseServed(w: World, lost: set<(u16, u16)>, u: u16, floor: u16, addr: FS.Addr) returns (ch: FS.Choice)
    requires Agreed(w, lost) && u in w.clients && floor in w.clients[u].active
    ensures Served(w, u, floor, addr, ch)
  {
    var s, c := w.server, w.clients[u];
    var r := c.active[floor].requestID;
    AgreedReady(w, lost, u, floor);
    AgreedIDs(w, lost, floor);
    ReleaseArrives(c, r);
    hide FS.StateAfter, FS.Reply, FS.NoticesAfter, FS.Legal, Received, IsNews, FloorIDOf, FloorRequestIDOf, Agreed,
         Drawn, DistinctIDs, AllReceived, AllNotices, FloorSet, Speaking, FS.ID;
    ch := ReleaseChoice(s, addr, ReleaseAt(c, r), floor, r);
    GivenUpServer(s, addr, ReleaseAt(c, r), false, ch, w.conferenceID, floor, r);
    SessionsStaySpeaking(s, addr, ReleaseAt(c, r), false, ch);
  }

  lemma ReleaseCompletes(w: World, lost: set<(u16, u16)>, u: u16, floor: u16, answer: Msg)
    requires Agreed(w, lost) && u in w.clients && floor in w.clients[u].active && w.clients[u].config.maxRetries > 0
    requires answer.transactionID == TransactionID(Numbered(w.clients[u]).nextTxID)
    ensures var c := w.clients[u];
            Completes(w, u, Numbered(c), ReleaseMsg(c, c.active[floor].requestID), AtOnce([answer]), answer)
  {
    var c := w.clients[u];
    AgreedReady(w, lost, u, floor);
    hide Transacted, Agreed, Deciding, MayArrive;
    AnsweredAtOnce(Numbered(c), ReleaseMsg(c, c.active[floor].requestID), [answer]);
  }

  lemma ReleasingTransaction(w: World, lost: set<(u16, u16)>, u: u16, floor: u16, addr: FS.Addr, ch: FS.Choice)
    requires Agreed(w, lost) && u in w.clients && floor in w.clients[u].active
    requires w.clients[u].config.maxRetries > 0 && Served(w, u, floor, addr, ch)
    ensures var c := w.clients[u];
            Transaction(w, Released(w, u, floor, addr, ch), u, ReleaseMsg(c, c.active[floor].requestID),
                        addr, false, ch, AtOnce([ReleasedAnswer(w, u, floor, addr, ch)]))
  {
    hide FS.StateAfter, FS.Reply, FS.NoticesAfter, FS.Legal, Received, Agreed, AllReceived, Completes, ReleaseOutcome,
         FS.ID, ReleaseMsg;
    ReleaseCompletes(w, lost, u, floor, ReleasedAnswer(w, u, floor, addr, ch));
  }

  lemma ReleasingIsNext(w: World, lost: set<(u16, u16)>, u: u16, floor: u16, addr: FS.Addr, ch: FS.Choice)
    requires Agreed(w, lost) && Within(w) && u in w.clients && floor in w.clients[u].active
    requires w.clients[u].config.maxRetries > 0 && w.clients[u].nextTxID + 1 < 0x1_0000
    requires Served(w, u, floor, addr, ch) && w.server.ticks + |w.server.sessions.Keys - {addr}| < 0x1_0000
    ensures Next(w, Releasing(w, u, floor, addr, ch), Released(w, u, floor, addr, ch))
    ensures Within(Released(w, u, floor, addr, ch))
  {
    hide FS.StateAfter, FS.Reply, FS.NoticesAfter, FS.Legal, Received, Agreed, AllReceived, Transaction,
         ReleaseOutcome, FS.ID, ReleaseMsg, ReleaseDatagram, ReleasedAnswer, Numbered;
    ReleasingTransaction(w, lost, u, floor, addr, ch);
    OutcomeNumbers(w.clients[u], floor, AtOnce([ReleasedAnswer(w, u, floor, addr, ch)]));
    CountsOn(w.clients[u]);
  }

  lemma ReleasedEffect(w: World, u: u16, floor: u16, addr: FS.Addr, ch: FS.Choice)
    requires u in w.clients && floor in w.clients[u].active && Served(w, u, floor, addr, ch)
    ensures var v, n := Released(w, u, floor, addr, ch), |w.server.sessions.Keys - {addr}|;
            && u in v.clients && v.clients == w.clients[u := v.clients[u]] && v.server.ticks == w.server.ticks + n
            && v.server.sessions.Keys == w.server.sessions.Keys && |v.notices| == |w.notices| + n
            && (n > 0 ==> v.notices[|w.notices|].transactionID == FS.ID(w.server.ticks + 1))
  {
    hide FS.StateAfter, FS.Reply, FS.NoticesAfter, FS.Legal, Received, AllReceived, ReleaseOutcome, FS.ID,
         ReleaseDatagram;
  }

  /** A client that has a floor can give it up, and the server frees exactly that floor and notifies
      every other session. */
  lemma ReleaseReachesServer(w: World, lost: set<(u16, u16)>, u: u16, floor: u16, addr: FS.Addr)
    returns (e: Event, v: World)
    requires Agreed(w, lost) && Within(w) && u in w.clients && floor in w.clients[u].active
    requires w.clients[u].config.maxRetries > 0 && w.clients[u].nextTxID + 1 < 0x1_0000
    requires w.server.ticks + |w.server.sessions.Keys - {addr}| < 0x1_0000
    ensures e.FloorGivenUp? && e.user == u && e.floor == floor && Next(w, e, v) && Within(v)
    ensures u in v.clients && floor !in v.clients[u].active && v.server.floors == w.server.floors[floor := NewFloor()]
    ensures v.server.ticks == w.server.ticks + |w.server.sessions.Keys - {addr}|
    ensures v.server.sessions.Keys == w.server.sessions.Keys && v.clients == w.clients[u := v.clients[u]]
    ensures |v.notices| == |w.notices| + |w.server.sessions.Keys - {addr}|
    ensures |v.notices| > |w.notices| ==> v.notices[|w.notices|].transactionID == FS.ID(w.server.ticks + 1)
  {
    hide Agreed, Within, Next, Served, Released, FS.ID;
    var ch := ReleaseServed(w, lost, u, floor, addr);
    e, v := Releasing(w, u, floor, addr, ch), Released(w, u, floor, addr, ch);
    ReleasingIsNext(w, lost, u, floor, addr, ch);
    ReleasedEffect(w, u, floor, addr, ch);
    AgreementAfterRelease(w, lost, e, v);
  }

  // ----- a run in which a grant is lost -----------------------------------

  const HERE: FS.Addr := "192.0.2.1:5000"
  const THERE: FS.Addr := "192.0.2.2:5000"

  function NewClient(user: u16): Client {
    Client(Config(1, user, VERSION_RFC8855, T1_DEFAULT, MAX_RETRIES_DEFAULT), 0, false, map[], map[], [], [], 0)
  }

  const FIRST: World := World(1, ServerSafety.START, map[7 := NewClient(7), 9 := NewClient(9)], [], [])

  function Greeting(): Msg {
    NewMsg(HELLO, 1, 1, 9).(version := VERSION_RFC8855)
  }

  const GREETED: World := FIRST.(server := FS.StateAfter(FIRST.server, THERE, Greeting(), false, NOTHING))

  lemma Greets()
    ensures Initial(FIRST) && Within(FIRST) && Next(FIRST, OtherDatagram(THERE, Greeting(), false, NOTHING), GREETED)
    ensures Within(GREETED) && GREETED.server.ticks == 0 && GREETED.server.floors == map[]
    ensures GREETED.server.sessions.Keys == {THERE}
  {
  }

  lemma AskedCounts(w: World, lost: set<(u16, u16)>, u: u16, floor: u16, addr: FS.Addr)
    requires Agreed(w, lost) && Within(w) && MayAsk(w, u) && FS.FloorOrNew(w.server, floor).status.Released?
    ensures var v := Asked(w, u, floor, addr, [AskedAnswer(w, u, floor, addr)]);
            && v.server.ticks == w.server.ticks + 1 && v.server.sessions.Keys == w.server.sessions.Keys
            && (forall k: u16 :: k != floor ==> FS.FloorOrNew(v.server, k) == FS.FloorOrNew(w.server, k))
            && v.notices == w.notices && v.clients == w.clients[u := v.clients[u]]
            && v.clients[u].nextTxID == w.clients[u].nextTxID + 1 && v.clients[u].config == w.clients[u].config
  {
    hide Agreed, Within, AskedAnswer, Askable, FS.StateAfter, RequestOutcome;
    var ds := [AskedAnswer(w, u, floor, addr)];
    AnswerAskable(w, lost, u, floor, addr);
    AskedGrants(w, lost, u, floor, addr, ds);
    OutcomeNumbers(w.clients[u], floor, AtOnce(ds));
    CountsOn(w.clients[u]);
  }

  /** A request for a free floor, answered at once, where nothing has been lost. */
  lemma AskAnswered(w: World, u: u16, floor: u16, addr: FS.Addr) returns (e: Event, v: World)
    requires Agreed(w, {}) && Within(w) && MayAsk(w, u) && FS.FloorOrNew(w.server, floor).status.Released?
    ensures Next(w, e, v) && Within(v) && Agreed(v, {}) && u in v.clients && floor in v.clients[u].active
    ensures v.server.ticks == w.server.ticks + 1 && v.server.sessions.Keys == w.server.sessions.Keys
    ensures forall k: u16 :: k != floor ==> FS.FloorOrNew(v.server, k) == FS.FloorOrNew(w.server, k)
    ensures v.notices == w.notices && v.clients == w.clients[u := v.clients[u]]
    ensures v.clients[u].nextTxID == w.clients[u].nextTxID + 1 && v.clients[u].config == w.clients[u].config
  {
    hide Agreed, Within, AskedAnswer, Asked, Mistook, FS.FloorOrNew, GrantedTo, Next;
    e, v := GrantReachesClient(w, {}, u, floor, addr);
    AskedCounts(w, {}, u, floor, addr);
    StepKeepsAgreement(w, {}, e, v);
  }

  /** Nothing lost, both floors free, and what the second client relies on. */
  ghost predicate Stands(w: World, ticks: nat) {
    && Agreed(w, {}) && Within(w) && w.server.ticks == ticks && w.server.sessions.Keys == {THERE}
    && FS.FloorOrNew(w.server, 1).status.Released? && FS.FloorOrNew(w.server, 2).status.Released?
    && 9 in w.clients && w.clients[9].nextTxID == 0 && w.clients[9].config.maxRetries > 0
  }

  lemma GreetedStands()
    ensures Stands(GREETED, 0) && GREETED.notices == []
    ensures 7 in GREETED.clients && GREETED.clients[7].nextTxID == 0 && GREETED.clients[7].config.maxRetries > 0
  {
    Greets();
    InitialAgreed(FIRST);
    hide Agreed, Next, Within;
    StepKeepsAgreement(FIRST, {}, OtherDatagram(THERE, Greeting(), false, NOTHING), GREETED);
  }

  /** One client gets floor 1 and gives it up again. */
  lemma ReleaseNoticed(w: World) returns (e1: Event, w2: World, e2: Event, w3: World)
    requires Stands(w, 0) && w.notices == []
    requires 7 in w.clients && w.clients[7].nextTxID == 0 && w.clients[7].config.maxRetries > 0
    ensures Next(w, e1, w2) && Within(w2) && Next(w2, e2, w3) && Stands(w3, 2)
    ensures |w3.notices| == 1 && w3.notices[0].transactionID == 2
  {
    hide Next, Within, Agreed, FS.ID;
    e1, w2 := AskAnswered(w, 7, 1, HERE);
    assert w2.server.sessions.Keys - {HERE} == {THERE};
    SmallID(2);
    e2, w3 := ReleaseReachesServer(w2, {}, 7, 1, HERE);
    StepKeepsAgreement(w2, {}, e2, w3);
  }

  /** A run in which a client asks for a floor of its own, and then for the one another client has just
      given up, whose notice carries the ID of that second request. */
  lemma LostGrant() returns (worlds: seq<World>, events: seq<Event>)
    ensures IsRun(worlds, events) && |events| == 5 && 9 in worlds[5].clients
    ensures GrantedTo(worlds[5].server, 9, 1) && !Holds(worlds[5].clients[9], 1)
    ensures Loses(worlds[4], events[4], worlds[5], 9, 1)
  {
    hide Next, Within, Agreed, GREETED, FIRST, Initial, Holds, GrantedTo, Loses, FS.FloorOrNew;
    Greets();
    GreetedStands();
    var e1, w2, e2, w3 := ReleaseNoticed(GREETED);
    var e3, w4 := AskAnswered(w3, 9, 2, THERE);
    var e4, w5 := NoticeLosesGrant(w4, {}, 9, 1, THERE, 0);
    worlds := [FIRST, GREETED, w2, w3, w4, w5];
    events := [OtherDatagram(THERE, Greeting(), false, NOTHING), e1, e2, e3, e4];
  }
}
