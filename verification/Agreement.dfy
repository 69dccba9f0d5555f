/** Clients and server together: over every run, a client believes it holds a floor exactly when the
    server has granted it, unless it took a notice for the answer to its request. Messages travel as
    octets through `Encode` and `Decode`. */
module Agreement {
  import opened Wrappers
  import opened Octets
  import opened Messages
  import opened Grouped
  import opened FloorState
  import opened Refusals
  import FS = FloorServer
  import opened UdpClient
  import opened Delivery
  import ServerSafety

  /** `notices` and `answers` are the datagrams the server has sent; an answer goes to its own client. */
  datatype World = World(conferenceID: u32, server: FS.State, clients: map<u16, Client>, notices: seq<Msg>,
                         answers: seq<(u16, Msg)>)

  datatype Event =
    | FloorAsked(user: u16, floor: u16, addr: FS.Addr, grant: bool, choice: FS.Choice, env: nat -> Attempt)
    | FloorGivenUp(user: u16, floor: u16, addr: FS.Addr, grant: bool, choice: FS.Choice, env: nat -> Attempt)
    | NoticeDelivered(user: u16, index: nat)
    | AnswerDelivered(index: nat)
    | OtherDatagram(addr: FS.Addr, msg: Msg, grant: bool, choice: FS.Choice)
    | FloorCreated(floor: u16)

  /** What may reach a client late or repeatedly: any notice, and the answers to its own requests. */
  ghost predicate MayArrive(w: World, u: u16, d: Msg) {
    || (exists i :: 0 <= i < |w.notices| && w.notices[i] == d)
    || (exists i :: 0 <= i < |w.answers| && w.answers[i] == (u, d))
  }

  /** The transaction ends with a datagram that carries its ID: the answer or some notice. Whatever else
      the client sees meanwhile was sent earlier. */
  ghost predicate Completes(w: World, u: u16, c: Client, m: Msg, env: nat -> Attempt, answer: Msg) {
    && Transacted(c, m, env).1.Success?
    && forall i, j :: 1 <= i <= c.config.maxRetries && env(i).Wait? && 0 <= j < |env(i).datagrams| ==>
         env(i).datagrams[j] == answer || MayArrive(w, u, env(i).datagrams[j])
  }

  ghost function AllReceived(packets: seq<FS.Packet>): (r: seq<Msg>)
    ensures |r| == |packets|
    ensures forall i :: 0 <= i < |packets| ==> r[i] == Received(packets[i].msg)
  {
    if packets == [] then [] else [Received(packets[0].msg)] + AllReceived(packets[1..])
  }

  ghost function Arriving(c: Client, sent: Msg): Msg {
    Received(sent.(version := c.config.version))
  }

  /** One transaction of a client: its datagram reaches the server once, and the server answers. */
  ghost predicate Transaction(w: World, v: World, u: u16, sent: Msg, addr: FS.Addr, grant: bool,
                              choice: FS.Choice, env: nat -> Attempt)
    requires u in w.clients
  {
    var c := w.clients[u];
    var m := Arriving(c, sent);
    var reply := FS.Reply(w.server, addr, m, grant, choice);
    && FS.Legal(w.server, addr, m, choice)
    && v.server == FS.StateAfter(w.server, addr, m, grant, choice)
    && v.notices == w.notices + AllReceived(FS.NoticesAfter(w.server, addr, m, w.conferenceID, choice))
    && reply.Some? && v.answers == w.answers + [(u, Received(reply.value))]
    && Completes(w, u, Numbered(c), sent, env, Received(reply.value))
  }

  ghost predicate Next(w: World, e: Event, v: World) {
    && v.conferenceID == w.conferenceID
    && match e
       case FloorAsked(u, floor, addr, grant, choice, env) =>
         && u in w.clients
         && Transaction(w, v, u, RequestMsg(w.clients[u], floor), addr, grant, choice, env)
         && v.clients == w.clients[u := RequestOutcome(w.clients[u], floor, env).0]
       case FloorGivenUp(u, floor, addr, grant, choice, env) =>
         && u in w.clients && floor in w.clients[u].active
         && Transaction(w, v, u, ReleaseMsg(w.clients[u], w.clients[u].active[floor].requestID),
                        addr, grant, choice, env)
         && v.clients == w.clients[u := ReleaseOutcome(w.clients[u], floor, env).0]
       case NoticeDelivered(u, i) =>
         && u in w.clients && i < |w.notices|
         && v == w.(clients := w.clients[u := Handled(w.clients[u], w.notices[i])])
       case AnswerDelivered(i) =>
         && i < |w.answers| && w.answers[i].0 in w.clients
         && var (u, m) := w.answers[i];
            v == w.(clients := w.clients[u := Handled(w.clients[u], m)])
       case OtherDatagram(addr, m, grant, choice) =>
         && m.primitive != FLOOR_REQUEST && m.primitive != FLOOR_RELEASE && m.primitive != GOODBYE
         && Speaks(m.version) && v == w.(server := FS.StateAfter(w.server, addr, m, grant, choice))
       case FloorCreated(floor) =>
         v == w.(server := w.server.(floors := w.server.floors[floor := FS.FloorOrNew(w.server, floor)]))
  }

  // ----- requests that are lost -------------------------------------------

  predicate GrantedTo(s: FS.State, u: u16, floor: u16) {
    floor in s.floors && s.floors[floor].status.Granted? && s.floors[floor].owner == u
  }

  /** The first datagram carrying the ID of a floor request is not the answer to it. */
  ghost predicate Mistook(w: World, e: Event) {
    && e.FloorAsked? && e.user in w.clients
    && var c := w.clients[e.user];
       var sent := RequestMsg(c, e.floor);
       var reply := FS.Reply(w.server, e.addr, Arriving(c, sent), e.grant, e.choice);
       reply.Some? ==> Deciding(e.env, c.config.maxRetries, sent.transactionID) != Some(Received(reply.value))
  }

  /** The server has granted the floor, and the client took a notice for the answer. */
  ghost predicate Loses(w: World, e: Event, v: World, u: u16, floor: u16) {
    Mistook(w, e) && e.user == u && e.floor == floor && GrantedTo(v.server, u, floor)
  }

  ghost function LostAfter(lost: set<(u16, u16)>, w: World, e: Event, v: World): set<(u16, u16)> {
    if e.FloorAsked? && Loses(w, e, v, e.user, e.floor) then lost + {(e.user, e.floor)} else lost
  }

  // ----- the invariant ----------------------------------------------------

  /** Client and server agree on one floor, request ID included, unless its grant was lost. */
  predicate Agrees(s: FS.State, lost: set<(u16, u16)>, c: Client, u: u16, floor: u16) {
    && (floor in c.active <==> GrantedTo(s, u, floor) && (u, floor) !in lost)
    && (floor in c.active ==> c.active[floor] == Active(s.floors[floor].requestID, STATUS_GRANTED))
    && ((u, floor) in lost ==> GrantedTo(s, u, floor))
  }

  predicate Ready(c: Client, u: u16) {
    c.config.userID == u && u != 0 && Speaks(c.config.version) && c.pending == map[] && !c.closed
  }

  /** Request IDs are drawn from the counter; only granted floors carry one. */
  predicate Drawn(s: FS.State, floor: u16) {
    floor in s.floors ==>
      var f := s.floors[floor];
      ServerSafety.Settled(f) && (if f.status.Granted? then 1 <= f.requestID <= s.ticks else f.requestID == 0)
  }

  predicate DistinctIDs(s: FS.State, j: u16, k: u16) {
    j != k && j in s.floors && k in s.floors && s.floors[j].status.Granted? && s.floors[k].status.Granted? ==>
      s.floors[j].requestID != s.floors[k].requestID
  }

  /** The server has already decided the request the news is about. */
  predicate Past(s: FS.State, floor: u16, requestID: u16, status: u8) {
    && requestID <= s.ticks
    && (floor in s.floors && s.floors[floor].status.Granted? && s.floors[floor].requestID == requestID ==>
          status == STATUS_GRANTED)
  }

  ghost predicate OldNews(s: FS.State, m: Msg) {
    || m.primitive == ERROR
    || exists floor: u16, requestID: u16, status: u8 ::
         IsNews(m, floor, requestID, status) && Past(s, floor, requestID, status)
  }

  ghost predicate IsNotice(m: Msg) {
    exists floor: u16, requestID: u16 :: IsNews(m, floor, requestID, STATUS_RELEASED)
  }

  ghost predicate ServerOK(s: FS.State) {
    && (forall k: u16 :: Drawn(s, k))
    && (forall j: u16, k: u16 :: DistinctIDs(s, j, k))
    && (forall a <- s.sessions :: Speaks(s.sessions[a].clientVersion))
  }

  ghost predicate MailOK(s: FS.State, notices: seq<Msg>, answers: seq<(u16, Msg)>) {
    && (forall i :: 0 <= i < |notices| ==> OldNews(s, notices[i]) && IsNotice(notices[i]))
    && (forall i :: 0 <= i < |answers| ==> OldNews(s, answers[i].1))
  }

  /** The answers carry transaction IDs already used. */
  ghost predicate Numbering(clients: map<u16, Client>, answers: seq<(u16, Msg)>) {
    forall i :: 0 <= i < |answers| && answers[i].0 in clients ==>
      answers[i].1.transactionID <= clients[answers[i].0].nextTxID
  }

  ghost predicate ClientsAgree(s: FS.State, lost: set<(u16, u16)>, clients: map<u16, Client>) {
    forall u <- clients :: Ready(clients[u], u) && forall k: u16 :: Agrees(s, lost, clients[u], u, k)
  }

  ghost predicate Agreed(w: World, lost: set<(u16, u16)>) {
    && ServerOK(w.server)
    && MailOK(w.server, w.notices, w.answers)
    && Numbering(w.clients, w.answers)
    && ClientsAgree(w.server, lost, w.clients)
  }

  // ----- one transaction --------------------------------------------------

  lemma NewsIsInert(s: FS.State, lost: set<(u16, u16)>, c: Client, u: u16, m: Msg)
    requires OldNews(s, m) && forall k: u16 :: Agrees(s, lost, c, u, k)
    ensures Inert(c, m) && Inert(Numbered(c), m)
  {
    hide IsNews;
    if m.primitive != ERROR {
      var floor: u16, requestID: u16, status: u8 :|
        IsNews(m, floor, requestID, status) && Past(s, floor, requestID, status);
      assert Agrees(s, lost, c, u, floor);
      assert NothingNew(c, floor, requestID, status) && NothingNew(Numbered(c), floor, requestID, status);
    }
  }

  lemma ArrivalInert(w: World, lost: set<(u16, u16)>, u: u16, d: Msg)
    requires Agreed(w, lost) && u in w.clients && MayArrive(w, u, d)
    ensures Inert(Numbered(w.clients[u]), d) && Inert(w.clients[u], d)
    ensures d.transactionID <= w.clients[u].nextTxID || exists i :: 0 <= i < |w.notices| && w.notices[i] == d
  {
    hide OldNews, IsNotice, Agrees, Drawn, DistinctIDs;
    NewsIsInert(w.server, lost, w.clients[u], u, d);
  }

  /** The counter below the first wrap of its low 16 bits. */
  lemma NextNumber(c: Client)
    requires Numbered(c).nextTxID < 0x1_0000 && c.nextTxID < 0x1_0000
    ensures Numbered(c).nextTxID == c.nextTxID + 1 && TransactionID(Numbered(c).nextTxID) == c.nextTxID + 1
  {
    LowMod(Bump(c.nextTxID), 0x1_0000);
    LowMod(Numbered(c).nextTxID, 0x1_0000);
  }

  /** The datagram that ends a transaction. */
  ghost predicate Taken(w: World, x: Msg, tx: u16, answer: Msg) {
    x == answer || (x.transactionID == tx && exists i :: 0 <= i < |w.notices| && w.notices[i] == x)
  }

  lemma TransactionCompletes(w: World, lost: set<(u16, u16)>, u: u16, m: Msg, env: nat -> Attempt, answer: Msg)
    requires Agreed(w, lost) && u in w.clients && !IsAck(m.primitive)
    requires Completes(w, u, Numbered(w.clients[u]), m, env, answer) && answer.transactionID == m.transactionID
    requires w.clients[u].nextTxID < m.transactionID
    ensures var c := Numbered(w.clients[u]);
            var (d, r), x := Transacted(c, m, env), Deciding(env, c.config.maxRetries, m.transactionID);
            && Completed(c, d) && x.Some? && r == Success(x.value) && Taken(w, x.value, m.transactionID, answer)
  {
    var c, tx := Numbered(w.clients[u]), m.transactionID;
    assert Ready(w.clients[u], u);
    hide Transacted, Inert, Agreed, Deciding, MayArrive, Agrees;
    forall i | 1 <= i <= c.config.maxRetries && env(i).Wait? ensures Harmless(c, env(i).datagrams, tx) {
      forall j | 0 <= j < |env(i).datagrams|
        ensures env(i).datagrams[j].transactionID == tx || Inert(c, env(i).datagrams[j])
      {
        if env(i).datagrams[j] != answer {
          ArrivalInert(w, lost, u, env(i).datagrams[j]);
        }
      }
    }
    TransactionEnds(c, m, env);
    var x := Deciding(env, c.config.maxRetries, tx).value;
    if x != answer {
      ArrivalInert(w, lost, u, x);
    }
  }

  // ----- one floor changes ------------------------------------------------

  /** A floor that may replace the one under its key: granted with a new request ID, or not granted. */
  predicate Fine(s: FS.State, t: FS.State, f: Floor) {
    ServerSafety.Settled(f) && (if f.status.Granted? then s.ticks < f.requestID <= t.ticks else f.requestID == 0)
  }

  /** `t` is `s` with one floor set. */
  predicate FloorSet(s: FS.State, t: FS.State, floor: u16, f: Floor) {
    && t.floors == s.floors[floor := f] && t.ticks >= s.ticks
    && (Fine(s, t, f) || (floor in s.floors && f == s.floors[floor]))
  }

  lemma NewsStaysOld(s: FS.State, t: FS.State, floor: u16, f: Floor, m: Msg)
    requires FloorSet(s, t, floor, f) && OldNews(s, m)
    ensures OldNews(t, m)
  {
    hide IsNews;
    if m.primitive != ERROR {
      var g: u16, r: u16, status: u8 :| IsNews(m, g, r, status) && Past(s, g, r, status);
      assert Past(t, g, r, status);
    }
  }

  lemma ServerStaysOK(s: FS.State, t: FS.State, floor: u16, f: Floor)
    requires ServerOK(s) && FloorSet(s, t, floor, f) && forall a <- t.sessions :: Speaks(t.sessions[a].clientVersion)
    ensures ServerOK(t)
  {
    forall k: u16 ensures Drawn(t, k) {
      assert Drawn(s, k);
    }
    forall j: u16, k: u16 ensures DistinctIDs(t, j, k) {
      assert DistinctIDs(s, j, k) && Drawn(s, j) && Drawn(s, k);
    }
  }

  lemma MailStaysOK(s: FS.State, t: FS.State, floor: u16, f: Floor, notices: seq<Msg>, answers: seq<(u16, Msg)>)
    requires MailOK(s, notices, answers) && FloorSet(s, t, floor, f)
    ensures MailOK(t, notices, answers)
  {
    hide OldNews, FloorSet, IsNotice;
    forall i | 0 <= i < |notices| ensures OldNews(t, notices[i]) {
      NewsStaysOld(s, t, floor, f, notices[i]);
    }
    forall i | 0 <= i < |answers| ensures OldNews(t, answers[i].1) {
      NewsStaysOld(s, t, floor, f, answers[i].1);
    }
  }

  /** The other users see no difference when a floor of `u`, or a free one, becomes one of `u` or free. */
  lemma OthersAgree(s: FS.State, t: FS.State, floor: u16, f: Floor, u: u16, lost: set<(u16, u16)>,
                    after: set<(u16, u16)>, c: Client, v: u16, k: u16)
    requires t.floors == s.floors[floor := f] && v != u && v != 0
    requires FS.FloorOrNew(s, floor).owner in {0, u} && f.owner in {0, u}
    requires (v, k) in after <==> (v, k) in lost
    requires Agrees(s, lost, c, v, k)
    ensures Agrees(t, after, c, v, k)
  {
  }

  // ----- a request --------------------------------------------------------

  lemma SmallID(ticks: nat)
    requires ticks < 0x1_0000
    ensures FS.ID(ticks) == ticks
  {
  }

  lemma RequestEffect(s: FS.State, addr: FS.Addr, m: Msg, grant: bool, ch: FS.Choice, floor: u16)
    requires m.primitive == FLOOR_REQUEST && FloorIDOf(m) == Some(floor) && s.ticks + 1 < 0x1_0000
    ensures var t, r := FS.StateAfter(s, addr, m, grant, ch), (s.ticks + 1) as u16;
            var f := FS.FloorOrNew(s, floor);
            && t.ticks == s.ticks + 1
            && if f.status.Released? then
                 && t.floors == s.floors[floor := if grant then Floor(Granted, m.userID, r, FS.PriorityOf(m))
                                                  else Floor(Denied, 0, 0, FS.PriorityOf(m))]
                 && FS.Reply(s, addr, m, grant, ch)
                 == Some(FS.StatusReply(m, FS.ReplyVersion(m.version), floor, r, if grant then Granted else Denied))
               else
                 && t.floors == s.floors[floor := f]
                 && FS.Reply(s, addr, m, grant, ch)
                 == Some(FS.Refused(m, RequestRefused(f.NotRequestable(floor))))
  {
    hide FS.StatusReply, FS.Refused, FloorIDOf, FS.PriorityOf;
    SmallID(s.ticks + 1);
  }

  /** What the server does with a request, and what its answer says. */
  predicate Answered(s: FS.State, t: FS.State, u: u16, floor: u16, answer: Msg) {
    var f := FS.FloorOrNew(t, floor);
    if !FS.FloorOrNew(s, floor).status.Released? then
      answer.primitive == ERROR && FloorSet(s, t, floor, FS.FloorOrNew(s, floor))
    else
      && FloorSet(s, t, floor, f) && Fine(s, t, f)
      && if f.status.Granted? then f.owner == u && IsNews(answer, floor, f.requestID, STATUS_GRANTED)
         else t.ticks < 0x1_0000 && IsNews(answer, floor, t.ticks as u16, STATUS_DENIED)
  }

  lemma AskedServer(s: FS.State, addr: FS.Addr, m: Msg, grant: bool, ch: FS.Choice, floor: u16)
    requires m.primitive == FLOOR_REQUEST && FloorIDOf(m) == Some(floor) && s.ticks + 1 < 0x1_0000
    requires m.userID != 0 && Speaks(m.version) && Drawn(s, floor)
    ensures var t, reply := FS.StateAfter(s, addr, m, grant, ch), FS.Reply(s, addr, m, grant, ch);
            && reply.Some? && Answered(s, t, m.userID, floor, Received(reply.value))
            && Received(reply.value).transactionID == m.transactionID && t.ticks == s.ticks + 1
  {
    hide FS.StateAfter, FS.Reply, Received, IsNews, FloorIDOf, FS.StatusReply, FS.Refused;
    RequestEffect(s, addr, m, grant, ch, floor);
    if FS.FloorOrNew(s, floor).status.Released? {
      StatusArrives(m, floor, (s.ticks + 1) as u16, if grant then Granted else Denied);
    } else {
      ErrorArrives(m, RequestRefused(FS.FloorOrNew(s, floor).NotRequestable(floor)));
    }
  }

  lemma AnswerIsOld(s: FS.State, t: FS.State, u: u16, floor: u16, answer: Msg)
    requires Answered(s, t, u, floor, answer)
    ensures OldNews(t, answer)
  {
    hide IsNews;
    var f := FS.FloorOrNew(t, floor);
    if FS.FloorOrNew(s, floor).status.Released? {
      if f.status.Granted? {
        assert Past(t, floor, f.requestID, STATUS_GRANTED);
      } else {
        assert Past(t, floor, t.ticks as u16, STATUS_DENIED);
      }
    }
  }

  /** What a client makes of news it takes for the answer to its request for `floor`. */
  lemma AnswerRead(d: Client, floor: u16, m: Msg, about: u16, requestID: u16, status: u8)
    requires IsNews(m, about, requestID, status)
    ensures var (e, r) := RequestAnswered(d, floor, m);
            && e == d.(active := e.active, reports := e.reports) && r == Success(requestID)
            && e.active == if Final(status) then d.active - {floor} else d.active[floor := Active(requestID, status)]
  {
    hide FloorIDOf, FloorRequestIDOf, RequestStatusOf, Infos;
    assert d.active[floor := Active(requestID, status)] - {floor} == d.active - {floor};
  }

  lemma ErrorAnswer(d: Client, floor: u16, m: Msg)
    requires m.primitive == ERROR
    ensures RequestAnswered(d, floor, m).0 == d && ReleaseAnswered(d, floor, m).0 == d
  {
  }

  /** How the client stands after its request: without the floor if it took a notice for the answer, and
      otherwise with the floor, without it, or as before. */
  predicate AfterRequest(s: FS.State, t: FS.State, c: Client, e: Client, floor: u16, mistook: bool) {
    && Ready(e, c.config.userID) && e.nextTxID == Numbered(c).nextTxID
    && (mistook ==> e.active == c.active - {floor})
    && if !FS.FloorOrNew(s, floor).status.Released? then
         (!mistook ==> e.active == c.active) && FloorSet(s, t, floor, FS.FloorOrNew(s, floor))
       else
         var f := FS.FloorOrNew(t, floor);
         && FloorSet(s, t, floor, f) && Fine(s, t, f)
         && if f.status.Granted? then
              && f.owner == c.config.userID
              && (!mistook ==> e.active == c.active[floor := Active(f.requestID, STATUS_GRANTED)])
            else e.active == c.active - {floor}
  }

  /** What a completed request makes of the answer, and of a notice. */
  lemma AskedOutcome(s: FS.State, t: FS.State, c: Client, d: Client, floor: u16, answer: Msg, x: Msg)
    requires Answered(s, t, c.config.userID, floor, answer) && Ready(c, c.config.userID) && Completed(Numbered(c), d)
    requires x == answer || IsNotice(x)
    ensures AfterRequest(s, t, c, RequestAnswered(d, floor, x).0, floor, x != answer)
  {
    hide RequestAnswered, IsNews, FS.FloorOrNew, FloorSet, Fine;
    if x != answer {
      var g: u16, r: u16 :| IsNews(x, g, r, STATUS_RELEASED);
      AnswerRead(d, floor, x, g, r, STATUS_RELEASED);
    } else if answer.primitive == ERROR {
      ErrorAnswer(d, floor, answer);
      NewsIsNoError(answer);
    } else {
      var f := FS.FloorOrNew(t, floor);
      if f.status.Granted? {
        AnswerRead(d, floor, answer, floor, f.requestID, STATUS_GRANTED);
      } else {
        AnswerRead(d, floor, answer, floor, t.ticks as u16, STATUS_DENIED);
      }
    }
  }

  lemma NewsIsNoError(m: Msg)
    ensures m.primitive == ERROR ==> forall g: u16, r: u16, status: u8 :: !IsNews(m, g, r, status)
  {
  }

  lemma AskedNotices(s: FS.State, addr: FS.Addr, m: Msg, conf: u32, ch: FS.Choice, notices: seq<Msg>)
    requires m.primitive == FLOOR_REQUEST
    ensures notices + AllReceived(FS.NoticesAfter(s, addr, m, conf, ch)) == notices
  {
  }

  lemma TakenNotice(w: World, lost: set<(u16, u16)>, x: Msg, tx: u16, answer: Msg)
    requires Agreed(w, lost) && Taken(w, x, tx, answer)
    ensures x == answer || IsNotice(x)
  {
    hide OldNews, IsNotice, Drawn, DistinctIDs, ClientsAgree, Numbering;
  }

  /** A request from the client's side: what it leaves in the client, on the server and in the mail. */
  lemma AskedClient(w: World, lost: set<(u16, u16)>, e: Event, v: World)
    requires Agreed(w, lost) && e.FloorAsked? && Next(w, e, v)
    requires w.server.ticks + 1 < 0x1_0000 && w.clients[e.user].nextTxID < 0x1_0000
    requires Numbered(w.clients[e.user]).nextTxID < 0x1_0000
    ensures v.server.ticks == w.server.ticks + 1
    ensures AfterRequest(w.server, v.server, w.clients[e.user], v.clients[e.user], e.floor, Mistook(w, e))
    ensures v.notices == w.notices && |v.answers| == |w.answers| + 1 && v.answers[..|w.answers|] == w.answers
    ensures var (u, m) := v.answers[|w.answers|];
            u == e.user && OldNews(v.server, m) && m.transactionID <= v.clients[u].nextTxID
  {
    var s, u, c, floor := w.server, e.user, w.clients[e.user], e.floor;
    var m, sent := RequestAt(c, floor), RequestMsg(c, floor);
    AgreedReady(w, lost, u, floor);
    RequestArrives(c, floor);
    NextNumber(c);
    hide Transacted, RequestAnswered, Received, FS.StateAfter, FS.Reply, FS.NoticesAfter, FloorIDOf, Agreed, Answered,
         AfterRequest, Drawn, Deciding, Taken, OldNews, Completes, FS.Legal, IsNotice, AllReceived;
    AskedNotices(s, e.addr, m, w.conferenceID, e.choice, w.notices);
    AskedServer(s, e.addr, m, e.grant, e.choice, floor);
    var answer := Received(FS.Reply(s, e.addr, m, e.grant, e.choice).value);
    TransactionCompletes(w, lost, u, sent, e.env, answer);
    var x := Deciding(e.env, c.config.maxRetries, sent.transactionID).value;
    TakenNotice(w, lost, x, sent.transactionID, answer);
    var d := Transacted(Numbered(c), sent, e.env).0;
    AskedOutcome(s, v.server, c, d, floor, answer, x);
    AnswerIsOld(s, v.server, u, floor, answer);
    AfterNumber(s, v.server, c, v.clients[u], floor, x != answer);
  }

  lemma AfterNumber(s: FS.State, t: FS.State, c: Client, e: Client, floor: u16, mistook: bool)
    requires AfterRequest(s, t, c, e, floor, mistook)
    ensures e.nextTxID == Numbered(c).nextTxID && Ready(e, c.config.userID)
  {
  }

  lemma AgreedReady(w: World, lost: set<(u16, u16)>, u: u16, floor: u16)
    requires Agreed(w, lost) && u in w.clients
    ensures Ready(w.clients[u], u) && Drawn(w.server, floor) && Agrees(w.server, lost, w.clients[u], u, floor)
  {
    hide MailOK, Numbering, DistinctIDs;
  }

  // ----- a release --------------------------------------------------------

  ghost predicate Speaking(s: FS.State) {
    forall a <- s.sessions :: Speaks(s.sessions[a].clientVersion)
  }

  lemma SessionsStaySpeaking(s: FS.State, addr: FS.Addr, m: Msg, grant: bool, ch: FS.Choice)
    requires Speaking(s) && Speaks(m.version) && m.primitive != GOODBYE
    ensures Speaking(FS.StateAfter(s, addr, m, grant, ch))
    ensures m.primitive != HELLO ==> FS.StateAfter(s, addr, m, grant, ch).sessions.Keys == s.sessions.Keys
  {
    hide FloorIDOf, FS.PriorityOf, FS.Freeable, FS.ID;
  }

  /** The request ID leads to the floor, whichever way the map is walked. */
  lemma ReleaseEffect(s: FS.State, addr: FS.Addr, m: Msg, grant: bool, ch: FS.Choice, conf: u32, floor: u16, r: u16)
    requires m.primitive == FLOOR_RELEASE && FloorIDOf(m) == None && FloorRequestIDOf(m) == Some(r) && m.userID != 0
    requires FS.Legal(s, addr, m, ch)
    requires GrantedTo(s, m.userID, floor) && s.floors[floor].requestID == r
    requires forall k: u16 :: Drawn(s, k) && DistinctIDs(s, floor, k)
    ensures var t, order := FS.StateAfter(s, addr, m, grant, ch), ch.order;
            && t.floors == s.floors[floor := NewFloor()] && t.ticks == s.ticks + |order|
            && FS.Reply(s, addr, m, grant, ch)
            == Some(FS.StatusReply(m, FS.ReplyVersion(m.version), floor, r, Released))
            && FS.NoticesAfter(s, addr, m, conf, ch)
            == FS.Notices(FS.Touched(s, addr, m), conf, order, s.ticks, m.userID, floor, r)
  {
    hide FS.StatusReply, FS.Refused, FloorIDOf, FloorRequestIDOf, FS.Notices, FS.Walks;
    assert Drawn(s, floor);
    assert ch.found.Some? && Drawn(s, ch.found.value) && DistinctIDs(s, floor, ch.found.value);
  }

  predicate AllNotices(ms: seq<Msg>, floor: u16, r: u16) {
    forall i :: 0 <= i < |ms| ==> IsNews(ms[i], floor, r, STATUS_RELEASED)
  }

  lemma {:induction false} NoticesAreNotices(s: FS.State, conf: u32, order: seq<FS.Addr>, ticks: nat, user: u16,
                                             floor: u16, r: u16)
    requires Speaking(s)
    ensures var ms := AllReceived(FS.Notices(s, conf, order, ticks, user, floor, r));
            AllNotices(ms, floor, r) && |ms| == |order| && (order != [] ==> ms[0].transactionID == FS.ID(ticks + 1))
    decreases order
  {
    hide Received, FS.Notice, IsNews, FS.ID;
    if order != [] {
      NoticeArrives(conf, FS.ID(ticks + 1), FS.VersionAt(s, order[0]), user, floor, r);
      NoticesAreNotices(s, conf, order[1..], ticks + 1, user, floor, r);
      var packets := FS.Notices(s, conf, order, ticks, user, floor, r);
      var others := FS.Notices(s, conf, order[1..], ticks + 1, user, floor, r);
      assert packets[1..] == others;
      var ms, rest := AllReceived(packets), AllReceived(others);
      assert AllNotices(rest, floor, r);
      assert forall i :: 0 < i < |ms| ==> ms[i] == rest[i - 1];
    }
  }

  lemma TouchedSpeaks(s: FS.State, addr: FS.Addr, m: Msg)
    requires Speaking(s) && Speaks(m.version)
    ensures Speaking(FS.Touched(s, addr, m))
  {
  }

  lemma GivenUpServer(s: FS.State, addr: FS.Addr, m: Msg, grant: bool, ch: FS.Choice, conf: u32, floor: u16, r: u16)
    requires m.primitive == FLOOR_RELEASE && FloorIDOf(m) == None && FloorRequestIDOf(m) == Some(r) && m.userID != 0
    requires Speaks(m.version) && Speaking(s) && FS.Legal(s, addr, m, ch)
    requires GrantedTo(s, m.userID, floor) && s.floors[floor].requestID == r
    requires forall k: u16 :: Drawn(s, k) && DistinctIDs(s, floor, k)
    ensures var t, reply := FS.StateAfter(s, addr, m, grant, ch), FS.Reply(s, addr, m, grant, ch);
            var ms := AllReceived(FS.NoticesAfter(s, addr, m, conf, ch));
            && t.floors == s.floors[floor := NewFloor()] && FloorSet(s, t, floor, NewFloor())
            && reply.Some? && IsNews(Received(reply.value), floor, r, STATUS_RELEASED)
            && Received(reply.value).transactionID == m.transactionID
            && AllNotices(ms, floor, r) && t.ticks == s.ticks + |ms| && |ms| == |ch.order|
            && (ms != [] ==> ms[0].transactionID == FS.ID(s.ticks + 1))
  {
    hide FS.StateAfter, FS.Reply, FS.NoticesAfter, FS.Notices, FS.StatusReply, Received, IsNews, FloorIDOf,
         FloorRequestIDOf, AllNotices, FS.Legal, FS.ID;
    ReleaseEffect(s, addr, m, grant, ch, conf, floor, r);
    StatusArrives(m, floor, r, Released);
    TouchedSpeaks(s, addr, m);
    NoticesAreNotices(FS.Touched(s, addr, m), conf, ch.order, s.ticks, m.userID, floor, r);
  }

  /** Whatever ends the transaction, it is no error: the client gives the floor up. */
  lemma ReleaseRead(d: Client, floor: u16, m: Msg)
    requires m.primitive != ERROR
    ensures var e := ReleaseAnswered(d, floor, m).0;
            e == d.(active := d.active - {floor}, reports := e.reports)
  {
  }

  lemma NoticeIsNoError(m: Msg)
    requires IsNotice(m)
    ensures m.primitive != ERROR
  {
  }

  /** A release from the client's side. */
  ghost predicate GivenUp(w: World, v: World, u: u16, floor: u16)
    requires u in w.clients && floor in w.clients[u].active && u in v.clients
  {
    var s, t, c, d, n := w.server, v.server, w.clients[u], v.clients[u], |w.answers|;
    var r := c.active[floor].requestID;
    && Ready(d, u) && d.active == c.active - {floor} && d.nextTxID == Numbered(c).nextTxID
    && GrantedTo(s, u, floor) && s.floors[floor].requestID == r
    && t.floors == s.floors[floor := NewFloor()] && FloorSet(s, t, floor, NewFloor())
    && |v.notices| >= |w.notices| && v.notices[..|w.notices|] == w.notices
    && AllNotices(v.notices[|w.notices|..], floor, r)
    && |v.answers| == n + 1 && v.answers[..n] == w.answers && v.answers[n].0 == u
    && IsNews(v.answers[n].1, floor, r, STATUS_RELEASED) && v.answers[n].1.transactionID <= d.nextTxID
  }

  lemma AgreedIDs(w: World, lost: set<(u16, u16)>, floor: u16)
    requires Agreed(w, lost)
    ensures Speaking(w.server) && forall k: u16 :: Drawn(w.server, k) && DistinctIDs(w.server, floor, k)
  {
    hide MailOK, Numbering, ClientsAgree;
  }

  lemma GivenUpClient(w: World, lost: set<(u16, u16)>, e: Event, v: World)
    requires Agreed(w, lost) && e.FloorGivenUp? && Next(w, e, v)
    requires w.clients[e.user].nextTxID < 0x1_0000 && Numbered(w.clients[e.user]).nextTxID < 0x1_0000
    ensures GivenUp(w, v, e.user, e.floor)
  {
    var s, u, c, floor := w.server, e.user, w.clients[e.user], e.floor;
    var r := c.active[floor].requestID;
    var m, sent := ReleaseAt(c, r), ReleaseMsg(c, r);
    AgreedReady(w, lost, u, floor);
    AgreedIDs(w, lost, floor);
    ReleaseArrives(c, r);
    NextNumber(c);
    hide Transacted, ReleaseAnswered, Received, FS.StateAfter, FS.Reply, FS.NoticesAfter, FS.Legal, IsNews, FloorIDOf,
         FloorRequestIDOf, Agreed, Drawn, DistinctIDs, AllNotices, FloorSet, Speaking, Deciding, Taken, Completes,
         IsNotice, AllReceived, FS.ID, MayArrive, TransactionID, NextCounter, RequestOutcome, Handled;
    GivenUpServer(s, e.addr, m, e.grant, e.choice, w.conferenceID, floor, r);
    var answer := Received(FS.Reply(s, e.addr, m, e.grant, e.choice).value);
    TransactionCompletes(w, lost, u, sent, e.env, answer);
    var x := Deciding(e.env, c.config.maxRetries, sent.transactionID).value;
    TakenNotice(w, lost, x, sent.transactionID, answer);
    if x == answer {
      NewsIsNoError(answer);
    } else {
      NoticeIsNoError(x);
    }
    ReleaseRead(Transacted(Numbered(c), sent, e.env).0, floor, x);
    var ms := AllReceived(FS.NoticesAfter(s, e.addr, m, w.conferenceID, e.choice));
    assert v.notices[|w.notices|..] == ms;
  }

  // ----- every step keeps agreement ---------------------------------------

  lemma OwnAgrees(s: FS.State, t: FS.State, lost: set<(u16, u16)>, after: set<(u16, u16)>, c: Client, e: Client,
                  floor: u16, mistook: bool, k: u16)
    requires AfterRequest(s, t, c, e, floor, mistook) && c.config.userID != 0
    requires var own := (c.config.userID, floor);
             after == if mistook && GrantedTo(t, own.0, floor) then lost + {own} else lost
    requires Agrees(s, lost, c, c.config.userID, k)
    ensures Agrees(t, after, e, c.config.userID, k)
  {
  }

  /** An accepted request leaves the other users alone, and a refused one everybody. */
  lemma OtherAgrees(s: FS.State, t: FS.State, lost: set<(u16, u16)>, after: set<(u16, u16)>, c: Client, e: Client,
                    floor: u16, mistook: bool, d: Client, v: u16, k: u16)
    requires AfterRequest(s, t, c, e, floor, mistook) && v != c.config.userID && v != 0 && Drawn(s, floor)
    requires after == lost || after == lost + {(c.config.userID, floor)}
    requires Agrees(s, lost, d, v, k)
    ensures Agrees(t, after, d, v, k)
  {
    if FS.FloorOrNew(s, floor).status.Released? {
      OthersAgree(s, t, floor, FS.FloorOrNew(t, floor), c.config.userID, lost, after, d, v, k);
    }
  }

  lemma AskedAgree(w: World, lost: set<(u16, u16)>, e: Event, v: World)
    requires Agreed(w, lost) && e.FloorAsked? && e.user in w.clients
    requires v.clients.Keys == w.clients.Keys && v.clients == w.clients[e.user := v.clients[e.user]]
    requires AfterRequest(w.server, v.server, w.clients[e.user], v.clients[e.user], e.floor, Mistook(w, e))
    ensures ClientsAgree(v.server, LostAfter(lost, w, e, v), v.clients)
  {
    hide Agrees, AfterRequest, Drawn, Mistook, Agreed;
    var s, t, u, after := w.server, v.server, e.user, LostAfter(lost, w, e, v);
    forall x <- v.clients ensures Ready(v.clients[x], x) && forall k: u16 :: Agrees(t, after, v.clients[x], x, k) {
      AgreedReady(w, lost, u, e.floor);
      AgreedReady(w, lost, x, e.floor);
      forall k: u16 ensures Agrees(t, after, v.clients[x], x, k) {
        AgreedReady(w, lost, x, k);
        if x == u {
          OwnAgrees(s, t, lost, after, w.clients[u], v.clients[u], e.floor, Mistook(w, e), k);
        } else {
          OtherAgrees(s, t, lost, after, w.clients[u], v.clients[u], e.floor, Mistook(w, e), w.clients[x], x, k);
        }
      }
      AfterNumber(s, t, w.clients[u], v.clients[u], e.floor, Mistook(w, e));
    }
  }

  /** Fewer than 65536 counter increments, on the server and on each client. */
  ghost predicate Within(w: World) {
    w.server.ticks < 0x1_0000 && forall u <- w.clients :: w.clients[u].nextTxID < 0x1_0000
  }

  lemma NumbersStay(w: World, v: World, u: u16)
    requires Numbering(w.clients, w.answers) && u in w.clients && u in v.clients
    requires v.clients == w.clients[u := v.clients[u]]
    requires v.clients[u].nextTxID >= w.clients[u].nextTxID
    requires |v.answers| == |w.answers| + 1 && v.answers[..|w.answers|] == w.answers
    requires v.answers[|w.answers|].0 == u && v.answers[|w.answers|].1.transactionID <= v.clients[u].nextTxID
    ensures Numbering(v.clients, v.answers)
  {
    forall i | 0 <= i < |v.answers| && v.answers[i].0 in v.clients
      ensures v.answers[i].1.transactionID <= v.clients[v.answers[i].0].nextTxID
    {
      if i < |w.answers| {
        assert v.answers[i] == w.answers[i];
      }
    }
  }

  lemma MailMore(t: FS.State, notices: seq<Msg>, answers: seq<(u16, Msg)>, ns: seq<Msg>, more: seq<(u16, Msg)>)
    requires MailOK(t, notices, answers) && |ns| >= |notices| && ns[..|notices|] == notices
    requires forall i :: |notices| <= i < |ns| ==> OldNews(t, ns[i]) && IsNotice(ns[i])
    requires |more| == |answers| + 1 && more[..|answers|] == answers && OldNews(t, more[|answers|].1)
    ensures MailOK(t, ns, more)
  {
    hide OldNews, IsNotice;
    forall i | 0 <= i < |ns| ensures OldNews(t, ns[i]) && IsNotice(ns[i]) {
      if i < |notices| {
        assert ns[i] == notices[i];
      }
    }
    forall i | 0 <= i < |more| ensures OldNews(t, more[i].1) {
      if i < |answers| {
        assert more[i] == answers[i];
      }
    }
  }

  /** What a request leaves of the floor asked for. */
  lemma AfterFloorSet(s: FS.State, t: FS.State, c: Client, e: Client, floor: u16, mistook: bool) returns (f: Floor)
    requires AfterRequest(s, t, c, e, floor, mistook)
    ensures FloorSet(s, t, floor, f)
  {
    f := if FS.FloorOrNew(s, floor).status.Released? then FS.FloorOrNew(t, floor) else FS.FloorOrNew(s, floor);
  }

  lemma AskedKeeps(w: World, lost: set<(u16, u16)>, e: Event, v: World)
    requires Agreed(w, lost) && e.FloorAsked? && Next(w, e, v) && Within(w) && Within(v)
    ensures Agreed(v, LostAfter(lost, w, e, v))
  {
    hide RequestOutcome, FS.StateAfter, FloorIDOf, RequestMsg, Received, OldNews, Drawn, DistinctIDs, FS.Legal,
         Completes, FS.Reply, FS.NoticesAfter, Agrees, AllReceived, AfterRequest, Mistook, LostAfter, ClientsAgree,
         FloorSet, IsNotice;
    var s, t, u, c := w.server, v.server, e.user, w.clients[e.user];
    RequestTicks(w, lost, e, v);
    AskedClient(w, lost, e, v);
    AskedAgree(w, lost, e, v);
    var f := AfterFloorSet(s, t, c, v.clients[u], e.floor, Mistook(w, e));
    RequestArrives(c, e.floor);
    SessionsStaySpeaking(s, e.addr, RequestAt(c, e.floor), e.grant, e.choice);
    ServerStaysOK(s, t, e.floor, f);
    MailStaysOK(s, t, e.floor, f, w.notices, w.answers);
    MailMore(t, w.notices, w.answers, v.notices, v.answers);
    AfterNumber(s, t, c, v.clients[u], e.floor, Mistook(w, e));
    NumbersStay(w, v, u);
  }

  /** The bounds of the run say what the counters may do. */
  lemma RequestTicks(w: World, lost: set<(u16, u16)>, e: Event, v: World)
    requires Agreed(w, lost) && e.FloorAsked? && Next(w, e, v) && Within(w) && Within(v)
    ensures e.user in w.clients && Speaks(w.clients[e.user].config.version)
    ensures w.server.ticks + 1 < 0x1_0000 && Numbered(w.clients[e.user]).nextTxID < 0x1_0000
    ensures Numbered(w.clients[e.user]).nextTxID >= w.clients[e.user].nextTxID
  {
    hide RequestOutcome, FS.StateAfter, RequestMsg, Received, FS.Legal, Completes, FS.Reply, FS.NoticesAfter,
         AllReceived, FloorIDOf, Agreed;
    var c := w.clients[e.user];
    AgreedReady(w, lost, e.user, e.floor);
    RequestArrives(c, e.floor);
    RequestCounts(w.server, e.addr, RequestAt(c, e.floor), e.grant, e.choice, e.floor);
    OutcomeNumbers(c, e.floor, e.env);
    assert v.clients[e.user].nextTxID < 0x1_0000;
    NumberedMore(c);
  }

  lemma RequestCounts(s: FS.State, addr: FS.Addr, m: Msg, grant: bool, ch: FS.Choice, floor: u16)
    requires m.primitive == FLOOR_REQUEST && FloorIDOf(m) == Some(floor)
    ensures FS.StateAfter(s, addr, m, grant, ch).ticks == s.ticks + 1
  {
    hide FloorIDOf, FS.PriorityOf, FS.ID;
  }

  lemma NumberedMore(c: Client)
    requires Numbered(c).nextTxID < 0x1_0000 && c.nextTxID < 0x1_0000
    ensures Numbered(c).nextTxID >= c.nextTxID
  {
    NextNumber(c);
  }

  lemma GivenUpAgree(w: World, lost: set<(u16, u16)>, v: World, u: u16, floor: u16)
    requires Agreed(w, lost) && u in w.clients && floor in w.clients[u].active && u in v.clients
    requires GivenUp(w, v, u, floor)
    requires v.clients == w.clients[u := v.clients[u]]
    ensures ClientsAgree(v.server, lost, v.clients)
  {
    hide Agrees, Agreed, FloorSet, AllNotices, IsNews;
    AgreedReady(w, lost, u, floor);
    forall x <- v.clients
      ensures Ready(v.clients[x], x) && forall k: u16 :: Agrees(v.server, lost, v.clients[x], x, k)
    {
      AgreedReady(w, lost, x, floor);
      forall k: u16 ensures Agrees(v.server, lost, v.clients[x], x, k) {
        AgreedReady(w, lost, x, k);
        if x == u {
          ReleasedAgrees(w.server, v.server, lost, floor, u, w.clients[u], v.clients[u], k);
        } else {
          OthersAgree(w.server, v.server, floor, NewFloor(), u, lost, lost, w.clients[x], x, k);
        }
      }
    }
  }

  lemma ReleasedAgrees(s: FS.State, t: FS.State, lost: set<(u16, u16)>, floor: u16, u: u16, c: Client, e: Client,
                       k: u16)
    requires t.floors == s.floors[floor := NewFloor()] && u != 0 && e.active == c.active - {floor}
    requires floor in c.active && Agrees(s, lost, c, u, k) && Agrees(s, lost, c, u, floor)
    ensures Agrees(t, lost, e, u, k)
  {
  }

  lemma GivenUpKeeps(w: World, lost: set<(u16, u16)>, e: Event, v: World)
    requires Agreed(w, lost) && e.FloorGivenUp? && Next(w, e, v) && Within(w) && Within(v)
    ensures Agreed(v, lost) && GivenUp(w, v, e.user, e.floor)
  {
    hide ReleaseOutcome, FS.StateAfter, FloorIDOf, FloorRequestIDOf, ReleaseMsg, Received, OldNews, Drawn, DistinctIDs,
         FS.Legal, Completes, FS.Reply, FS.NoticesAfter, Agrees, AllReceived, ClientsAgree, FloorSet, IsNotice, GivenUp;
    var s, t, u, c := w.server, v.server, e.user, w.clients[e.user];
    ReleaseTicks(w, lost, e, v);
    GivenUpClient(w, lost, e, v);
    GivenUpAgree(w, lost, v, u, e.floor);
    GivenUpMail(w, v, u, e.floor);
    ReleaseArrives(c, c.active[e.floor].requestID);
    SessionsStaySpeaking(s, e.addr, ReleaseAt(c, c.active[e.floor].requestID), e.grant, e.choice);
    GivenUpFloor(w, v, u, e.floor);
    ServerStaysOK(s, t, e.floor, NewFloor());
    NumbersStay(w, v, u);
  }

  lemma GivenUpFloor(w: World, v: World, u: u16, floor: u16)
    requires u in w.clients && floor in w.clients[u].active && u in v.clients && GivenUp(w, v, u, floor)
    ensures var n := |w.answers|;
            && FloorSet(w.server, v.server, floor, NewFloor())
            && v.clients[u].nextTxID == Numbered(w.clients[u]).nextTxID
            && |v.answers| == n + 1 && v.answers[..n] == w.answers
            && v.answers[n].0 == u && v.answers[n].1.transactionID <= v.clients[u].nextTxID
  {
  }

  /** A request given up is old news. */
  lemma GivenUpMail(w: World, v: World, u: u16, floor: u16)
    requires u in w.clients && floor in w.clients[u].active && u in v.clients && GivenUp(w, v, u, floor)
    requires MailOK(w.server, w.notices, w.answers) && forall k: u16 :: Drawn(w.server, k)
    ensures MailOK(v.server, v.notices, v.answers)
  {
    hide IsNews, MailOK;
    var t, r, n := v.server, w.clients[u].active[floor].requestID, |w.notices|;
    assert Drawn(w.server, floor);
    assert Past(t, floor, r, STATUS_RELEASED);
    MailStaysOK(w.server, t, floor, NewFloor(), w.notices, w.answers);
    forall i | n <= i < |v.notices| ensures OldNews(t, v.notices[i]) && IsNotice(v.notices[i]) {
      assert v.notices[i] == v.notices[n..][i - n];
      assert IsNews(v.notices[i], floor, r, STATUS_RELEASED);
    }
    MailMore(t, w.notices, w.answers, v.notices, v.answers);
  }

  lemma ReleaseTicks(w: World, lost: set<(u16, u16)>, e: Event, v: World)
    requires Agreed(w, lost) && e.FloorGivenUp? && Next(w, e, v) && Within(w) && Within(v)
    ensures e.user in w.clients && Speaks(w.clients[e.user].config.version)
    ensures Numbered(w.clients[e.user]).nextTxID < 0x1_0000
    ensures Numbered(w.clients[e.user]).nextTxID >= w.clients[e.user].nextTxID
  {
    hide ReleaseOutcome, FS.StateAfter, ReleaseMsg, Received, FS.Legal, Completes, FS.Reply, FS.NoticesAfter,
         AllReceived, FloorIDOf, Agreed;
    var c := w.clients[e.user];
    AgreedReady(w, lost, e.user, e.floor);
    OutcomeNumbers(c, e.floor, e.env);
    assert v.clients[e.user].nextTxID < 0x1_0000;
    NumberedMore(c);
  }

  lemma HandledAgrees(w: World, lost: set<(u16, u16)>, u: u16, d: Msg)
    requires Agreed(w, lost) && u in w.clients && MayArrive(w, u, d)
    ensures Agreed(w.(clients := w.clients[u := Handled(w.clients[u], d)]), lost)
  {
    hide MayArrive, Handled, Inert, ServerOK, MailOK;
    var c := w.clients[u];
    ArrivalInert(w, lost, u, d);
    InertHandled(c, d);
    HandledKeeps(c, d, d);
    forall k: u16 ensures Agrees(w.server, lost, Handled(c, d), u, k) {
      assert Agrees(w.server, lost, c, u, k);
    }
  }

  lemma DeliveredKeeps(w: World, lost: set<(u16, u16)>, e: Event, v: World)
    requires Agreed(w, lost) && (e.NoticeDelivered? || e.AnswerDelivered?) && Next(w, e, v)
    ensures Agreed(v, lost)
  {
    hide Agreed, Handled;
    if e.NoticeDelivered? {
      HandledAgrees(w, lost, e.user, w.notices[e.index]);
    } else {
      HandledAgrees(w, lost, w.answers[e.index].0, w.answers[e.index].1);
    }
  }

  lemma OtherEffect(s: FS.State, addr: FS.Addr, m: Msg, grant: bool, ch: FS.Choice)
    requires m.primitive != FLOOR_REQUEST && m.primitive != FLOOR_RELEASE && m.primitive != GOODBYE
    ensures var t := FS.StateAfter(s, addr, m, grant, ch); t.floors == s.floors && t.ticks == s.ticks
  {
  }

  lemma SameFloors(w: World, lost: set<(u16, u16)>, v: World)
    requires Agreed(w, lost) && v == w.(server := v.server) && Speaking(v.server)
    requires v.server.floors == w.server.floors && v.server.ticks == w.server.ticks
    ensures Agreed(v, lost)
  {
    hide IsNews;
    var s, t := w.server, v.server;
    forall m | OldNews(s, m) ensures OldNews(t, m) {
      if m.primitive != ERROR {
        var g: u16, r: u16, status: u8 :| IsNews(m, g, r, status) && Past(s, g, r, status);
        assert Past(t, g, r, status);
      }
    }
    forall k: u16 ensures Drawn(t, k) {
      assert Drawn(s, k);
    }
    forall j: u16, k: u16 ensures DistinctIDs(t, j, k) {
      assert DistinctIDs(s, j, k);
    }
    forall u <- v.clients, k: u16 ensures Agrees(t, lost, v.clients[u], u, k) {
      assert Agrees(s, lost, w.clients[u], u, k);
    }
  }

  lemma OtherKeeps(w: World, lost: set<(u16, u16)>, e: Event, v: World)
    requires Agreed(w, lost) && e.OtherDatagram? && Next(w, e, v)
    ensures Agreed(v, lost)
  {
    AgreedIDs(w, lost, 0);
    hide FS.StateAfter, Agreed, Speaking, Drawn, DistinctIDs;
    OtherEffect(w.server, e.addr, e.msg, e.grant, e.choice);
    SessionsStaySpeaking(w.server, e.addr, e.msg, e.grant, e.choice);
    SameFloors(w, lost, v);
  }

  lemma CreatedKeeps(w: World, lost: set<(u16, u16)>, e: Event, v: World)
    requires Agreed(w, lost) && e.FloorCreated? && Next(w, e, v)
    ensures Agreed(v, lost)
  {
    hide OldNews, Drawn, DistinctIDs, MailOK;
    var s, t := w.server, v.server;
    ServerStaysOK(s, t, e.floor, FS.FloorOrNew(s, e.floor));
    MailStaysOK(s, t, e.floor, FS.FloorOrNew(s, e.floor), w.notices, w.answers);
    forall u <- v.clients, k: u16 ensures Agrees(t, lost, v.clients[u], u, k) {
      assert Agrees(s, lost, w.clients[u], u, k);
    }
  }

  /** Every step keeps agreement on every floor, but for the one a notice may have lost. */
  lemma StepKeepsAgreement(w: World, lost: set<(u16, u16)>, e: Event, v: World)
    requires Agreed(w, lost) && Next(w, e, v) && Within(w) && Within(v)
    ensures Agreed(v, LostAfter(lost, w, e, v))
  {
    hide Agreed, Next, Loses, Within;
    match e
    case FloorAsked(_, _, _, _, _, _) => AskedKeeps(w, lost, e, v);
    case FloorGivenUp(_, _, _, _, _, _) => GivenUpKeeps(w, lost, e, v);
    case NoticeDelivered(_, _) => DeliveredKeeps(w, lost, e, v);
    case AnswerDelivered(_) => DeliveredKeeps(w, lost, e, v);
    case OtherDatagram(_, _, _, _) => OtherKeeps(w, lost, e, v);
    case FloorCreated(_) => CreatedKeeps(w, lost, e, v);
  }

  /** After a request, client and server agree on the floor exactly when the server has not granted it
      to the client or the first datagram carrying the request's ID was the answer, and the floor was not
      lost before. */
  lemma AgreementAfterRequest(w: World, lost: set<(u16, u16)>, e: Event, v: World)
    requires Agreed(w, lost) && e.FloorAsked? && Next(w, e, v) && Within(w) && Within(v)
    ensures e.user in v.clients
    ensures (Holds(v.clients[e.user], e.floor) <==> GrantedTo(v.server, e.user, e.floor)) <==>
              !GrantedTo(v.server, e.user, e.floor) || (!Mistook(w, e) && (e.user, e.floor) !in lost)
  {
    StepKeepsAgreement(w, lost, e, v);
    hide Agreed, Mistook, Transaction, RequestOutcome, Within;
    AgreedReady(v, LostAfter(lost, w, e, v), e.user, e.floor);
  }

  /** After a release they agree whichever datagram ended the transaction: neither has the floor. */
  lemma AgreementAfterRelease(w: World, lost: set<(u16, u16)>, e: Event, v: World)
    requires Agreed(w, lost) && e.FloorGivenUp? && Next(w, e, v) && Within(w) && Within(v)
    ensures e.user in v.clients && e.floor !in v.clients[e.user].active && !GrantedTo(v.server, e.user, e.floor)
    ensures v.server.floors == w.server.floors[e.floor := NewFloor()]
  {
    hide Agreed, ReleaseOutcome, Transaction, Within;
    GivenUpKeeps(w, lost, e, v);
  }

  /** A mistaken datagram is a notice that carries the ID of the request. */
  lemma MistakenIsNotice(w: World, lost: set<(u16, u16)>, e: Event, v: World)
    requires Agreed(w, lost) && e.FloorAsked? && Next(w, e, v) && Within(w) && Within(v) && Mistook(w, e)
    ensures exists i :: 0 <= i < |w.notices| && w.notices[i].transactionID == Numbered(w.clients[e.user]).nextTxID
  {
    var s, u, c, floor := w.server, e.user, w.clients[e.user], e.floor;
    RequestTicks(w, lost, e, v);
    AgreedReady(w, lost, u, floor);
    RequestArrives(c, floor);
    NextNumber(c);
    hide FS.StateAfter, FS.Reply, FS.NoticesAfter, Received, FloorIDOf, Agreed, Drawn, Deciding, Transacted, Completes,
         RequestAnswered;
    AskedServer(s, e.addr, RequestAt(c, floor), e.grant, e.choice, floor);
    TransactionCompletes(w, lost, u, RequestMsg(c, floor), e.env,
                         Received(FS.Reply(s, e.addr, RequestAt(c, floor), e.grant, e.choice).value));
  }
}
