/** The client role over UDP: transactions with retransmission (section 8.3.1 of RFC 8855) and the
    requests a client believes it holds. */
module UdpClient {
  import opened Wrappers
  import opened Octets
  import opened Tlv
  import opened Messages
  import opened Grouped
  import opened Codec

  const T1_DEFAULT: nat := 500
  const MAX_RETRIES_DEFAULT: nat := 4

  const STATUS_GRANTED: u8 := 3
  const STATUS_DENIED: u8 := 4
  const STATUS_CANCELLED: u8 := 5
  const STATUS_RELEASED: u8 := 6
  const STATUS_REVOKED: u8 := 7

  /** Durations are in milliseconds. */
  datatype Config = Config(conferenceID: u32, userID: u16, version: u8, t1: nat, maxRetries: nat)

  /** An entry of `activeRequests`. */
  datatype Active = Active(requestID: u16, status: u8)

  datatype Report =
    | FloorGranted(floor: u16, requestID: u16)
    | FloorDenied(floor: u16, requestID: u16)
    | FloorReleased(floor: u16)
    | FloorStatus(floor: u16, beneficiary: u16, status: u8)
    | ErrorReceived(msg: Msg)

  /** The value of a client. A pending transaction maps to the first answer it received, as the
      one-place channel of the source. */
  datatype Client = Client(config: Config, nextTxID: u32, closed: bool, pending: map<u16, Option<Msg>>,
                           active: map<u16, Active>, reports: seq<Report>, sent: seq<Msg>, waited: nat)

  datatype ClientError =
    | ClientClosed | SendFailed | NoResponse | ServerError(msg: Msg) | Unexpected(primitive: u8)
    | MissingRequestID | MissingStatus | NoActiveRequest

  /** What happens during one attempt: the send fails, or datagrams arrive until the timer fires or
      the client is closed. */
  datatype Attempt = SendFails | Wait(datagrams: seq<Msg>, closing: bool)

  // ----- transaction IDs --------------------------------------------------

  function Bump(n: u32): u32 {
    if n == 0xFFFF_FFFF then 0 else n + 1
  }

  /** The counter after `nextTransactionID`, whose result is its low 16 bits. */
  function NextCounter(n: u32): u32 {
    if Low(Bump(n), 0x1_0000) == 0 then Bump(Bump(n)) else Bump(n)
  }

  function TransactionID(n: u32): u16 {
    Low(n, 0x1_0000)
  }

  /** The counter after `k` calls. */
  function CounterAfter(n: u32, k: nat): u32 {
    if k == 0 then n else NextCounter(CounterAfter(n, k - 1))
  }

  lemma BumpLow(n: u32)
    ensures Low(Bump(n), 0x1_0000) == if Low(n, 0x1_0000) == 0xFFFF then 0 else Low(n, 0x1_0000) + 1
  {
    LowMod(n, 0x1_0000);
    LowMod(Bump(n), 0x1_0000);
  }

  /** IDs go from 1 to 65535 and round again, through the wrap of the 32-bit counter as well. */
  lemma NextIs(n: u32)
    ensures TransactionID(NextCounter(n)) == if TransactionID(n) == 0xFFFF then 1 else TransactionID(n) + 1
  {
    BumpLow(n);
    BumpLow(Bump(n));
  }

  lemma NextResidue(a: nat)
    ensures (a + 1) % 0xFFFF == if a % 0xFFFF == 0xFFFE then 0 else a % 0xFFFF + 1
  {
  }

  lemma {:induction false} IDAfter(n: u32, k: nat)
    requires k > 0
    ensures TransactionID(CounterAfter(n, k)) == (TransactionID(n) + k - 1) % 0xFFFF + 1
  {
    hide NextCounter, TransactionID;
    NextIs(CounterAfter(n, k - 1));
    if k > 1 {
      IDAfter(n, k - 1);
      NextResidue(TransactionID(n) + k - 2);
    }
  }

  lemma SameResidue(a: nat, d: nat)
    ensures (a + d) % 0xFFFF == a % 0xFFFF <==> d % 0xFFFF == 0
  {
  }

  /** Successive calls never return 0, and two of them return the same ID exactly when they are a
      multiple of 65535 calls apart. */
  lemma TransactionIDs(n: u32, i: nat, j: nat)
    requires 0 < i <= j
    ensures TransactionID(CounterAfter(n, i)) != 0
    ensures TransactionID(CounterAfter(n, i)) == TransactionID(CounterAfter(n, j)) <==> (j - i) % 0xFFFF == 0
  {
    IDAfter(n, i);
    IDAfter(n, j);
    SameResidue(TransactionID(n) + i - 1, j - i);
  }

  // ----- what a datagram does to the client -------------------------------

  function Final(status: u8): bool {
    status == STATUS_RELEASED || status == STATUS_REVOKED || status == STATUS_DENIED || status == STATUS_CANCELLED
  }

  function Reported(floor: u16, requestID: u16, status: u8): seq<Report> {
    if status == STATUS_GRANTED then [FloorGranted(floor, requestID)]
    else if status == STATUS_DENIED then [FloorDenied(floor, requestID)]
    else if status == STATUS_RELEASED || status == STATUS_REVOKED || status == STATUS_CANCELLED
    then [FloorReleased(floor)]
    else []
  }

  /** `applyOwnStatus` */
  function Applied(c: Client, floor: u16, requestID: u16, status: u8): Client {
    var active := if floor !in c.active then c.active
                  else if Final(status) then c.active - {floor}
                  else c.active[floor := c.active[floor].(status := status)];
    c.(active := active, reports := c.reports + Reported(floor, requestID, status))
  }

  predicate OwnRequest(c: Client, floor: u16, requestID: u16, beneficiary: u16) {
    || (floor in c.active && c.active[floor].requestID == requestID)
    || (beneficiary != 0 && beneficiary == c.config.userID)
  }

  function NotedFloor(c: Client, floor: u16, requestID: u16, beneficiary: u16, status: u8): Client {
    if OwnRequest(c, floor, requestID, beneficiary) then Applied(c, floor, requestID, status)
    else c.(reports := c.reports + [FloorStatus(floor, beneficiary, status)])
  }

  function NotedFloors(c: Client, floors: seq<FloorRequestStatusInfo>, requestID: u16, beneficiary: u16,
                       status: u8): Client
    decreases floors
  {
    if floors == [] then c
    else NotedFloors(NotedFloor(c, floors[0].floorID, requestID, beneficiary, status), floors[1..], requestID,
                     beneficiary, status)
  }

  function Beneficiary(info: FloorRequestInfo): u16 {
    if !info.hasBeneficiary && info.hasRequestedBy then info.requestedByID else info.beneficiaryID
  }

  function NotedInfo(c: Client, info: FloorRequestInfo): Client {
    match StatusOf(info)
    case None => c
    case Some(status) => NotedFloors(c, info.floors, info.floorRequestID, Beneficiary(info), status)
  }

  function NotedInfos(c: Client, infos: seq<FloorRequestInfo>): Client
    decreases infos
  {
    if infos == [] then c else NotedInfos(NotedInfo(c, infos[0]), infos[1..])
  }

  /** `handleNotification` */
  function Notified(c: Client, m: Msg): Client {
    var infos := Infos(m.attributes);
    if infos != [] then NotedInfos(c, infos)
    else if m.primitive == FLOOR_STATUS && FloorIDOf(m).Some?
    then c.(reports := c.reports + [FloorStatus(FloorIDOf(m).value, 0, STATUS_RELEASED)])
    else c
  }

  function Ack(c: Client, m: Msg, primitive: u8): Client {
    c.(sent := c.sent + [NewMsg(primitive, m.conferenceID, m.transactionID, c.config.userID)
                           .(reserved := WithFlag(0, true), version := c.config.version)])
  }

  /** `handleMessage`: answers go to their transaction, and only the first one is kept. */
  function Handled(c: Client, m: Msg): Client {
    if m.transactionID in c.pending then
      if c.pending[m.transactionID].None? then c.(pending := c.pending[m.transactionID := Some(m)]) else c
    else if m.primitive == FLOOR_REQUEST_STATUS then Ack(Notified(c, m), m, FLOOR_REQUEST_STATUS_ACK)
    else if m.primitive == FLOOR_STATUS then Ack(Notified(c, m), m, FLOOR_STATUS_ACK)
    else if m.primitive == GOODBYE then Ack(c, m, GOODBYE_ACK)
    else if m.primitive == ERROR then c.(reports := c.reports + [ErrorReceived(m)])
    else c
  }

  function AllHandled(c: Client, ms: seq<Msg>): Client
    decreases ms
  {
    if ms == [] then c else AllHandled(Handled(c, ms[0]), ms[1..])
  }

  // ----- transactions -----------------------------------------------------

  function Sent(c: Client, m: Msg): Client {
    c.(sent := c.sent + [m.(version := c.config.version)])
  }

  function Opened(c: Client, tx: u16): Client {
    c.(pending := c.pending[tx := None])
  }

  function Closed(c: Client, tx: u16): Client {
    c.(pending := c.pending - {tx})
  }

  /** The retransmission loop: `left` attempts to go, numbered from `attempt`. */
  function Exchanged(c: Client, m: Msg, env: nat -> Attempt, attempt: nat, left: nat, wait: nat)
    : (Client, Result<Msg, ClientError>)
    decreases left
  {
    if left == 0 then (c, Failure(NoResponse))
    else
      match env(attempt)
      case SendFails => (c, Failure(SendFailed))
      case Wait(datagrams, closing) =>
        var d := AllHandled(Sent(c, m), datagrams);
        var tx := m.transactionID;
        if closing then (d.(closed := true), Failure(ClientClosed))
        else if tx in d.pending && d.pending[tx].Some? then (d, Success(d.pending[tx].value))
        else Exchanged(d.(waited := d.waited + wait), m, env, attempt + 1, left - 1, wait * 2)
  }

  /** `transact` */
  function Transacted(c: Client, m: Msg, env: nat -> Attempt): (Client, Result<Msg, ClientError>) {
    if c.closed then (c, Failure(ClientClosed))
    else
      var (d, r) := Exchanged(Opened(c, m.transactionID), m, env, 1, c.config.maxRetries, c.config.t1);
      (Closed(d, m.transactionID), r)
  }

  // ----- what a transaction guarantees ------------------------------------

  predicate Silent(a: Attempt, tx: u16) {
    a.Wait? && !a.closing && forall i :: 0 <= i < |a.datagrams| ==> a.datagrams[i].transactionID != tx
  }

  predicate IsAck(primitive: u8) {
    primitive == FLOOR_REQUEST_STATUS_ACK || primitive == FLOOR_STATUS_ACK || primitive == GOODBYE_ACK
  }

  /** How often `m` was sent. */
  function Copies(sent: seq<Msg>, m: Msg): nat {
    if sent == [] then 0 else Copies(sent[..|sent| - 1], m) + (if sent[|sent| - 1] == m then 1 else 0)
  }

  function Pow2(n: nat): nat {
    if n == 0 then 1 else 2 * Pow2(n - 1)
  }

  lemma CopiesSnoc(sent: seq<Msg>, x: Msg, m: Msg)
    ensures Copies(sent + [x], m) == Copies(sent, m) + (if x == m then 1 else 0)
  {
    assert (sent + [x])[..|sent + [x]| - 1] == sent;
  }

  lemma {:induction false} NotedFloorsKeeps(c: Client, floors: seq<FloorRequestStatusInfo>, requestID: u16,
                                            beneficiary: u16, status: u8)
    ensures var d := NotedFloors(c, floors, requestID, beneficiary, status);
            d == c.(active := d.active, reports := d.reports)
    decreases floors
  {
    if floors != [] {
      NotedFloorsKeeps(NotedFloor(c, floors[0].floorID, requestID, beneficiary, status), floors[1..], requestID,
                       beneficiary, status);
    }
  }

  lemma {:induction false} NotedInfosKeeps(c: Client, infos: seq<FloorRequestInfo>)
    ensures var d := NotedInfos(c, infos); d == c.(active := d.active, reports := d.reports)
    decreases infos
  {
    if infos != [] {
      if StatusOf(infos[0]).Some? {
        NotedFloorsKeeps(c, infos[0].floors, infos[0].floorRequestID, Beneficiary(infos[0]), StatusOf(infos[0]).value);
      }
      NotedInfosKeeps(NotedInfo(c, infos[0]), infos[1..]);
    }
  }

  lemma NotifiedKeeps(c: Client, m: Msg)
    ensures var d := Notified(c, m); d == c.(active := d.active, reports := d.reports)
  {
    hide Infos, FloorIDOf, NotedInfos;
    NotedInfosKeeps(c, Infos(m.attributes));
  }

  /** A datagram leaves alone everything but the requests, the reports and the acknowledgements, and
      the pending transaction it answers. */
  lemma HandledKeeps(c: Client, d: Msg, m: Msg)
    ensures var e := Handled(c, d);
            && e.config == c.config && e.nextTxID == c.nextTxID && e.closed == c.closed && e.waited == c.waited
            && e.pending == (if d.transactionID in c.pending && c.pending[d.transactionID].None?
                             then c.pending[d.transactionID := Some(d)] else c.pending)
    ensures !IsAck(m.primitive) ==> Copies(Handled(c, d).sent, m) == Copies(c.sent, m)
  {
    hide Notified, Copies;
    NotifiedKeeps(c, d);
    if d.transactionID !in c.pending {
      var n := Notified(c, d);
      CopiesSnoc(c.sent, Ack(c, d, FLOOR_REQUEST_STATUS_ACK).sent[|c.sent|], m);
      CopiesSnoc(c.sent, Ack(c, d, FLOOR_STATUS_ACK).sent[|c.sent|], m);
      CopiesSnoc(c.sent, Ack(c, d, GOODBYE_ACK).sent[|c.sent|], m);
    }
  }

  /** The first datagram of a transaction, if any. */
  function FirstFor(ds: seq<Msg>, tx: u16): Option<Msg> {
    if ds == [] then None else if ds[0].transactionID == tx then Some(ds[0]) else FirstFor(ds[1..], tx)
  }

  lemma {:induction false} AllHandledKeeps(c: Client, ds: seq<Msg>, tx: u16, m: Msg)
    requires tx in c.pending
    ensures var e := AllHandled(c, ds);
            && e.config == c.config && e.nextTxID == c.nextTxID && e.closed == c.closed && e.waited == c.waited
            && e.pending.Keys == c.pending.Keys
            && e.pending[tx] == (if c.pending[tx].Some? then c.pending[tx] else FirstFor(ds, tx))
            && (!IsAck(m.primitive) ==> Copies(e.sent, m) == Copies(c.sent, m))
    decreases ds
  {
    hide Handled, Copies;
    if ds != [] {
      HandledKeeps(c, ds[0], m);
      AllHandledKeeps(Handled(c, ds[0]), ds[1..], tx, m);
    }
  }

  lemma SilentIs(a: Attempt, tx: u16)
    ensures Silent(a, tx) <==> a.Wait? && !a.closing && FirstFor(a.datagrams, tx) == None
  {
    if a.Wait? {
      SilentHasNone(a.datagrams, tx);
    }
  }

  lemma {:induction false} SilentHasNone(ds: seq<Msg>, tx: u16)
    ensures FirstFor(ds, tx) == None <==> forall i :: 0 <= i < |ds| ==> ds[i].transactionID != tx
  {
    if ds != [] {
      SilentHasNone(ds[1..], tx);
      assert forall i :: 0 < i < |ds| ==> ds[i] == ds[1..][i - 1];
    }
  }

  /** How many attempts pass without an answer, of the `left` ones from `attempt` on. */
  function Quiet(env: nat -> Attempt, attempt: nat, left: nat, tx: u16): (n: nat)
    ensures n <= left
    decreases left
  {
    if left == 0 || !Silent(env(attempt), tx) then 0 else 1 + Quiet(env, attempt + 1, left - 1, tx)
  }

  /** How a transaction ends when the attempt after the quiet ones is `a`. */
  function Ending(a: Attempt, tx: u16): Result<Msg, ClientError> {
    match a
    case SendFails => Failure(SendFailed)
    case Wait(datagrams, closing) =>
      if closing then Failure(ClientClosed)
      else
        match FirstFor(datagrams, tx)
        case Some(answer) => Success(answer)
        case None => Failure(NoResponse)
  }

  lemma Doubled(wait: nat, p: nat)
    requires p > 0
    ensures wait + wait * 2 * (p - 1) == wait * (2 * p - 1)
  {
  }

  lemma {:induction false} Pow2Positive(n: nat)
    ensures Pow2(n) > 0
  {
    if n > 0 {
      Pow2Positive(n - 1);
    }
  }

  /** One attempt, nothing deciding it. */
  lemma QuietAttempt(c: Client, m: Msg, ds: seq<Msg>, k: Msg)
    requires m.transactionID in c.pending && c.pending[m.transactionID].None? && !IsAck(k.primitive)
    ensures var d := AllHandled(Sent(c, m), ds);
            && d.config == c.config && d.nextTxID == c.nextTxID && d.closed == c.closed && d.waited == c.waited
            && d.pending.Keys == c.pending.Keys && d.pending[m.transactionID] == FirstFor(ds, m.transactionID)
            && Copies(d.sent, k) == Copies(c.sent, k) + (if k == m.(version := c.config.version) then 1 else 0)
  {
    hide Copies, AllHandled;
    AllHandledKeeps(Sent(c, m), ds, m.transactionID, k);
    CopiesSnoc(c.sent, m.(version := c.config.version), k);
  }

  /** One copy for each quiet attempt and one for the deciding one, each wait twice the one before. */
  lemma {:induction false} ExchangeOutcome(c: Client, m: Msg, env: nat -> Attempt, attempt: nat, left: nat, wait: nat)
    requires m.transactionID in c.pending && c.pending[m.transactionID].None? && !IsAck(m.primitive)
    ensures var (d, r), n := Exchanged(c, m, env, attempt, left, wait), Quiet(env, attempt, left, m.transactionID);
            var k := m.(version := c.config.version);
            && d.config == c.config && d.nextTxID == c.nextTxID && d.pending.Keys == c.pending.Keys
            && r == (if n == left then Failure(NoResponse) else Ending(env(attempt + n), m.transactionID))
            && (d.closed <==> c.closed || r == Failure(ClientClosed))
            && Copies(d.sent, k) == Copies(c.sent, k) + n + (if n < left && env(attempt + n).Wait? then 1 else 0)
            && d.waited == c.waited + wait * (Pow2(n) - 1)
    decreases left
  {
    hide Copies, AllHandled, FirstFor, Silent, Sent;
    SilentIs(env(attempt), m.transactionID);
    if left > 0 && env(attempt).Wait? {
      var ds, k := env(attempt).datagrams, m.(version := c.config.version);
      QuietAttempt(c, m, ds, k);
      if Silent(env(attempt), m.transactionID) {
        var d := AllHandled(Sent(c, m), ds);
        var n := Quiet(env, attempt + 1, left - 1, m.transactionID);
        ExchangeOutcome(d.(waited := d.waited + wait), m, env, attempt + 1, left - 1, wait * 2);
        Pow2Positive(n);
        Doubled(wait, Pow2(n));
      }
    }
  }

  /** A transaction sends one copy for each attempt up to the one that decides it and has then waited
      T1 * (2^n - 1) for the n silent ones. It fails for lack of an answer exactly when all MaxRetries
      attempts are silent, and every exit leaves no pending entry for its ID. */
  lemma TransactionOutcome(c: Client, m: Msg, env: nat -> Attempt)
    requires !c.closed && !IsAck(m.primitive)
    ensures var (d, r), max := Transacted(c, m, env), c.config.maxRetries;
            var n, k := Quiet(env, 1, max, m.transactionID), m.(version := c.config.version);
            && d.config == c.config && d.pending.Keys == c.pending.Keys - {m.transactionID}
            && (d.closed <==> r == Failure(ClientClosed))
            && r == (if n == max then Failure(NoResponse) else Ending(env(1 + n), m.transactionID))
            && (r == Failure(NoResponse) <==> n == max)
            && Copies(d.sent, k) == Copies(c.sent, k) + n + (if n < max && env(1 + n).Wait? then 1 else 0)
            && d.waited == c.waited + c.config.t1 * (Pow2(n) - 1)
  {
    hide Copies, Exchanged;
    var n := Quiet(env, 1, c.config.maxRetries, m.transactionID);
    ExchangeOutcome(Opened(c, m.transactionID), m, env, 1, c.config.maxRetries, c.config.t1);
    QuietMeans(env, 1, c.config.maxRetries, m.transactionID);
  }

  lemma {:induction false} QuietMeans(env: nat -> Attempt, attempt: nat, left: nat, tx: u16)
    ensures var n := Quiet(env, attempt, left, tx);
            && (forall i :: attempt <= i < attempt + n ==> Silent(env(i), tx))
            && (n < left ==> !Silent(env(attempt + n), tx) && Ending(env(attempt + n), tx) != Failure(NoResponse))
    decreases left
  {
    if left > 0 && Silent(env(attempt), tx) {
      QuietMeans(env, attempt + 1, left - 1, tx);
    } else if left > 0 && env(attempt).Wait? {
      SilentHasNone(env(attempt).datagrams, tx);
    }
  }

  // ----- requests ---------------------------------------------------------

  function Numbered(c: Client): Client {
    c.(nextTxID := NextCounter(c.nextTxID))
  }

  ghost function RequestMsg(c: Client, floor: u16): Msg {
    NewMsg(FLOOR_REQUEST, c.config.conferenceID, TransactionID(Numbered(c).nextTxID), c.config.userID)
      .(attributes := [Plain(FLOOR_ID, PutU16(floor))])
  }

  ghost function ReleaseMsg(c: Client, requestID: u16): Msg {
    NewMsg(FLOOR_RELEASE, c.config.conferenceID, TransactionID(Numbered(c).nextTxID), c.config.userID)
      .(attributes := [Plain(FLOOR_REQUEST_ID, PutU16(requestID))])
  }

  /** What `RequestFloor` does with the answer. */
  function RequestAnswered(c: Client, floor: u16, m: Msg): (Client, Result<u16, ClientError>) {
    if m.primitive == ERROR then (c, Failure(ServerError(m)))
    else if m.primitive != FLOOR_REQUEST_STATUS then (c, Failure(Unexpected(m.primitive)))
    else if FloorRequestIDOf(m).None? then (c, Failure(MissingRequestID))
    else if RequestStatusOf(m).None? then (c, Failure(MissingStatus))
    else
      var requestID, status := FloorRequestIDOf(m).value, RequestStatusOf(m).value.0;
      (Applied(c.(active := c.active[floor := Active(requestID, status)]), floor, requestID, status),
       Success(requestID))
  }

  ghost function RequestOutcome(c: Client, floor: u16, env: nat -> Attempt): (Client, Result<u16, ClientError>) {
    var (d, r) := Transacted(Numbered(c), RequestMsg(c, floor), env);
    match r
    case Failure(e) => (d, Failure(e))
    case Success(m) => RequestAnswered(d, floor, m)
  }

  /** What `ReleaseFloor` does with the answer. */
  function ReleaseAnswered(c: Client, floor: u16, m: Msg): (Client, Result<(), ClientError>) {
    if m.primitive == ERROR then (c, Failure(ServerError(m)))
    else (c.(active := c.active - {floor}, reports := c.reports + [FloorReleased(floor)]), Success(()))
  }

  ghost function ReleaseOutcome(c: Client, floor: u16, env: nat -> Attempt): (Client, Result<(), ClientError>) {
    if floor !in c.active then (c, Failure(NoActiveRequest))
    else
      var (d, r) := Transacted(Numbered(c), ReleaseMsg(c, c.active[floor].requestID), env);
      match r
      case Failure(e) => (d, Failure(e))
      case Success(m) => ReleaseAnswered(d, floor, m)
  }

  predicate Holds(c: Client, floor: u16) {
    floor in c.active && c.active[floor].status == STATUS_GRANTED
  }

  /** The datagram that decides a transaction: the first one carrying its ID. */
  function Deciding(env: nat -> Attempt, max: nat, tx: u16): Option<Msg> {
    var n := Quiet(env, 1, max, tx);
    if n < max && env(1 + n).Wait? && !env(1 + n).closing then FirstFor(env(1 + n).datagrams, tx) else None
  }

  lemma TransactionDecided(c: Client, m: Msg, env: nat -> Attempt)
    requires !c.closed && !IsAck(m.primitive)
    ensures var r, x := Transacted(c, m, env).1, Deciding(env, c.config.maxRetries, m.transactionID);
            if x.Some? then r == Success(x.value) else r.Failure?
  {
    hide Transacted, Copies;
    TransactionOutcome(c, m, env);
  }

  /** `RequestFloor` reports an ID exactly when the first datagram carrying its transaction ID is a
      FloorRequestStatus with that ID, of whatever floor and whether or not it is an answer. It then
      lists the floor exactly when the status is not a final one. */
  lemma RequestTakesFirst(c: Client, floor: u16, env: nat -> Attempt, r: u16)
    requires !c.closed
    ensures var (d, result), m := RequestOutcome(c, floor, env), RequestMsg(c, floor);
            var x := Deciding(env, c.config.maxRetries, m.transactionID);
            && (result == Success(r) <==>
                  && x.Some? && x.value.primitive == FLOOR_REQUEST_STATUS
                  && FloorRequestIDOf(x.value) == Some(r) && RequestStatusOf(x.value).Some?)
            && (result == Success(r) ==> (floor in d.active <==> !Final(RequestStatusOf(x.value).value.0)))
  {
    hide Transacted, Deciding, FloorRequestIDOf, RequestStatusOf;
    TransactionDecided(Numbered(c), RequestMsg(c, floor), env);
  }

  // ----- the client object ------------------------------------------------

  class UDPClient {
    const config: Config
    var nextTxID: u32
    var closed: bool
    var pending: map<u16, Option<Msg>>
    var activeRequests: map<u16, Active>
    var reports: seq<Report>
    var sent: seq<Msg>
    var waited: nat

    function View(): Client
      reads this
    {
      Client(config, nextTxID, closed, pending, activeRequests, reports, sent, waited)
    }

    /** Defaults as `NewUDPClient` fills them in. */
    constructor (conferenceID: u32, userID: u16, version: u8, t1: int, maxRetries: int)
      ensures config.conferenceID == conferenceID && config.userID == userID
      ensures config.version == if version == 0 then 2 else version
      ensures config.t1 == if t1 <= 0 then 500 else t1
      ensures config.maxRetries == if maxRetries <= 0 then 4 else maxRetries
      ensures View() == Client(config, 0, false, map[], map[], [], [], 0)
    {
      config := Config(conferenceID, userID, if version == 0 then VERSION_RFC8855 else version,
                       if t1 <= 0 then T1_DEFAULT else t1, if maxRetries <= 0 then MAX_RETRIES_DEFAULT else maxRetries);
      nextTxID, closed, pending, activeRequests, reports, sent, waited := 0, false, map[], map[], [], [], 0;
    }

    method NextTransactionID() returns (id: u16)
      modifies this`nextTxID
      ensures View() == Numbered(old(View())) && id == TransactionID(nextTxID)
    {
      BumpLow(nextTxID);
      nextTxID := Bump(nextTxID);
      LowMod(nextTxID, 0x1_0000);
      id := nextTxID % 0x1_0000;
      if id == 0 {
        nextTxID := Bump(nextTxID);
        LowMod(nextTxID, 0x1_0000);
        id := nextTxID % 0x1_0000;
      }
    }

    method HasFloor(floorID: u16) returns (has: bool)
      ensures has <==> Holds(View(), floorID)
    {
      has := floorID in activeRequests && activeRequests[floorID].status == STATUS_GRANTED;
    }

    method ApplyOwnStatus(floorID: u16, requestID: u16, status: u8)
      modifies this`activeRequests, this`reports
      ensures View() == Applied(old(View()), floorID, requestID, status)
    {
      if floorID in activeRequests {
        activeRequests := activeRequests[floorID := activeRequests[floorID].(status := status)];
        if status == STATUS_RELEASED || status == STATUS_REVOKED || status == STATUS_DENIED
          || status == STATUS_CANCELLED {
          activeRequests := activeRequests - {floorID};
        }
      }
      if status == STATUS_GRANTED {
        reports := reports + [FloorGranted(floorID, requestID)];
      } else if status == STATUS_DENIED {
        reports := reports + [FloorDenied(floorID, requestID)];
      } else if status == STATUS_RELEASED || status == STATUS_REVOKED || status == STATUS_CANCELLED {
        reports := reports + [FloorReleased(floorID)];
      }
    }

    method HandleNotification(msg: Msg)
      modifies this`activeRequests, this`reports
      ensures View() == Notified(old(View()), msg)
    {
      var infos := Infos(msg.attributes);
      if infos == [] {
        if msg.primitive == FLOOR_STATUS && FloorIDOf(msg).Some? {
          reports := reports + [FloorStatus(FloorIDOf(msg).value, 0, STATUS_RELEASED)];
        }
        return;
      }
      var i := 0;
      while i < |infos|
        invariant 0 <= i <= |infos|
        invariant NotedInfos(View(), infos[i..]) == NotedInfos(old(View()), infos)
      {
        assert infos[i..][1..] == infos[i + 1..];
        NoteInfo(infos[i]);
        i := i + 1;
      }
    }

    method NoteInfo(info: FloorRequestInfo)
      modifies this`activeRequests, this`reports
      ensures View() == NotedInfo(old(View()), info)
    {
      var status := StatusOf(info);
      if status.None? {
        return;
      }
      var beneficiaryID := info.beneficiaryID;
      if !info.hasBeneficiary && info.hasRequestedBy {
        beneficiaryID := info.requestedByID;
      }
      var i := 0;
      while i < |info.floors|
        invariant 0 <= i <= |info.floors|
        invariant NotedFloors(View(), info.floors[i..], info.floorRequestID, beneficiaryID, status.value)
               == NotedFloors(old(View()), info.floors, info.floorRequestID, beneficiaryID, status.value)
      {
        var floorID := info.floors[i].floorID;
        assert info.floors[i..][1..] == info.floors[i + 1..];
        if OwnRequest(View(), floorID, info.floorRequestID, beneficiaryID) {
          ApplyOwnStatus(floorID, info.floorRequestID, status.value);
        } else {
          reports := reports + [FloorStatus(floorID, beneficiaryID, status.value)];
        }
        i := i + 1;
      }
    }

    method SendAck(msg: Msg, primitive: u8)
      modifies this`sent
      ensures View() == Ack(old(View()), msg, primitive)
    {
      var ack := new Message(primitive, msg.conferenceID, msg.transactionID, config.userID);
      ack.SetResponse(true);
      Send(ack);
    }

    method Send(msg: Message)
      modifies this`sent, msg`version
      ensures View() == Sent(old(View()), old(msg.Value()))
      ensures msg.Value() == old(msg.Value()).(version := config.version)
    {
      msg.version := config.version;
      sent := sent + [msg.Value()];
    }

    method HandleMessage(msg: Msg)
      modifies this`pending, this`activeRequests, this`reports, this`sent
      ensures View() == Handled(old(View()), msg)
    {
      if msg.transactionID in pending {
        if pending[msg.transactionID].None? {
          pending := pending[msg.transactionID := Some(msg)];
        }
        return;
      }
      if msg.primitive == FLOOR_REQUEST_STATUS {
        HandleNotification(msg);
        SendAck(msg, FLOOR_REQUEST_STATUS_ACK);
      } else if msg.primitive == FLOOR_STATUS {
        HandleNotification(msg);
        SendAck(msg, FLOOR_STATUS_ACK);
      } else if msg.primitive == GOODBYE {
        SendAck(msg, GOODBYE_ACK);
      } else if msg.primitive == ERROR {
        reports := reports + [ErrorReceived(msg)];
      }
    }

    /** The datagrams the read loop hands over while a transaction waits. */
    method Receive(datagrams: seq<Msg>)
      modifies this`pending, this`activeRequests, this`reports, this`sent
      ensures View() == AllHandled(old(View()), datagrams)
    {
      var i := 0;
      while i < |datagrams|
        invariant 0 <= i <= |datagrams|
        invariant AllHandled(View(), datagrams[i..]) == AllHandled(old(View()), datagrams)
      {
        assert datagrams[i..][1..] == datagrams[i + 1..];
        HandleMessage(datagrams[i]);
        i := i + 1;
      }
    }

    method Transact(msg: Message, env: nat -> Attempt) returns (r: Result<Msg, ClientError>)
      modifies this`closed, this`pending, this`activeRequests, this`reports, this`sent, this`waited, msg`version
      ensures (View(), r) == Transacted(old(View()), old(msg.Value()), env)
    {
      if closed {
        return Failure(ClientClosed);
      }
      pending := pending[msg.transactionID := None];
      r := Attempts(msg, env);
      pending := pending - {msg.transactionID};
    }

    method Attempts(msg: Message, env: nat -> Attempt) returns (r: Result<Msg, ClientError>)
      modifies this`closed, this`pending, this`activeRequests, this`reports, this`sent, this`waited, msg`version
      ensures (View(), r) == Exchanged(old(View()), old(msg.Value()), env, 1, config.maxRetries, config.t1)
    {
      var wait := config.t1;
      var attempt := 1;
      ghost var m := msg.Value();
      while attempt <= config.maxRetries
        invariant 1 <= attempt <= config.maxRetries + 1 && msg.transactionID == m.transactionID
        invariant msg.Value().(version := config.version) == m.(version := config.version)
        invariant Exchanged(View(), m, env, attempt, config.maxRetries + 1 - attempt, wait)
               == Exchanged(old(View()), m, env, 1, config.maxRetries, config.t1)
      {
        var outcome := env(attempt);
        if outcome.SendFails? {
          return Failure(SendFailed);
        }
        Send(msg);
        Receive(outcome.datagrams);
        if outcome.closing {
          closed := true;
          return Failure(ClientClosed);
        }
        if msg.transactionID in pending && pending[msg.transactionID].Some? {
          return Success(pending[msg.transactionID].value);
        }
        waited := waited + wait;
        wait := wait * 2;
        attempt := attempt + 1;
      }
      r := Failure(NoResponse);
    }

    method RequestFloor(floorID: u16, env: nat -> Attempt) returns (r: Result<u16, ClientError>)
      modifies this
      ensures (View(), r) == RequestOutcome(old(View()), floorID, env)
    {
      var id := NextTransactionID();
      var msg := new Message(FLOOR_REQUEST, config.conferenceID, id, config.userID);
      msg.AddFloorID(floorID);
      assert msg.Value() == RequestMsg(old(View()), floorID);
      var answer := Transact(msg, env);
      if answer.Failure? {
        return Failure(answer.error);
      }
      var response := answer.value;
      if response.primitive == ERROR {
        return Failure(ServerError(response));
      }
      if response.primitive != FLOOR_REQUEST_STATUS {
        return Failure(Unexpected(response.primitive));
      }
      var requestID := FloorRequestIDOf(response);
      if requestID.None? {
        return Failure(MissingRequestID);
      }
      var status := RequestStatusOf(response);
      if status.None? {
        return Failure(MissingStatus);
      }
      activeRequests := activeRequests[floorID := Active(requestID.value, status.value.0)];
      ApplyOwnStatus(floorID, requestID.value, status.value.0);
      r := Success(requestID.value);
    }

    method ReleaseFloor(floorID: u16, env: nat -> Attempt) returns (r: Result<(), ClientError>)
      modifies this
      ensures (View(), r) == ReleaseOutcome(old(View()), floorID, env)
    {
      if floorID !in activeRequests {
        return Failure(NoActiveRequest);
      }
      var requestID := activeRequests[floorID].requestID;
      var id := NextTransactionID();
      var msg := new Message(FLOOR_RELEASE, config.conferenceID, id, config.userID);
      msg.AddFloorRequestID(requestID);
      assert msg.Value() == ReleaseMsg(old(View()), requestID);
      var answer := Transact(msg, env);
      if answer.Failure? {
        return Failure(answer.error);
      }
      if answer.value.primitive == ERROR {
        return Failure(ServerError(answer.value));
      }
      activeRequests := activeRequests - {floorID};
      reports := reports + [FloorReleased(floorID)];
      r := Success(());
    }
  }
}
