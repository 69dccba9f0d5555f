/** Messages between the UDP client and the server as they arrive: encoded, decoded and read. */
module Delivery {
  import opened Wrappers
  import opened Octets
  import opened Tlv
  import opened Messages
  import opened Grouped
  import opened FloorState
  import opened Refusals
  import FS = FloorServer
  import opened UdpClient

  // ----- messages as they arrive ------------------------------------------

  /** What the peer decodes from the octets of `m`. */
  ghost function Received(m: Msg): Msg {
    if Encoding(m).Some? && Decoding(Encoding(m).value).Success? then Decoding(Encoding(m).value).value else m
  }

  lemma OneSmallAttribute(m: Msg, typ: u8, value: seq<u8>)
    requires Supported(m) && m.attributes == [Plain(typ, value)] && typ < 128 && |value| <= 2
    ensures WellFormed(m) && Received(m) == m.(payloadLength := PayloadWords(m.attributes))
  {
    assert Size([Plain(typ, value)]) == Padded(2 + |value|) by {
      SizeCons(Plain(typ, value), []);
      assert [Plain(typ, value)] + [] == [Plain(typ, value)];
    }
    RoundTripIff(m);
  }

  lemma OneAttribute(m: Msg, typ: u8, value: seq<u8>, other: u8)
    requires m.attributes == [Plain(typ, value)] && typ != FLOOR_REQUEST_INFO && other != typ
    ensures First(m.attributes, typ) == Some(Plain(typ, value)) && First(m.attributes, other) == None
    ensures Infos(m.attributes) == []
  {
    assert [Plain(typ, value)][1..] == [];
    assert InfoOf(Plain(typ, value)) + [] == [];
  }

  predicate Speaks(version: u8) {
    version == VERSION_RFC4582 || version == VERSION_RFC8855
  }

  ghost function RequestAt(c: Client, floor: u16): Msg {
    Received(RequestMsg(c, floor).(version := c.config.version))
  }

  ghost function ReleaseAt(c: Client, requestID: u16): Msg {
    Received(ReleaseMsg(c, requestID).(version := c.config.version))
  }

  lemma RequestArrives(c: Client, floor: u16)
    requires Speaks(c.config.version)
    ensures var m := RequestAt(c, floor);
            && m.primitive == FLOOR_REQUEST && m.userID == c.config.userID && m.version == c.config.version
            && m.conferenceID == c.config.conferenceID && m.reserved == 0
            && m.transactionID == TransactionID(Numbered(c).nextTxID) && FloorIDOf(m) == Some(floor)
  {
    var m := RequestMsg(c, floor).(version := c.config.version);
    OneSmallAttribute(m, FLOOR_ID, PutU16(floor));
    OneAttribute(Received(m), FLOOR_ID, PutU16(floor), FLOOR_REQUEST_ID);
  }

  lemma ReleaseArrives(c: Client, requestID: u16)
    requires Speaks(c.config.version)
    ensures var m := ReleaseAt(c, requestID);
            && m.primitive == FLOOR_RELEASE && m.userID == c.config.userID && m.version == c.config.version
            && m.conferenceID == c.config.conferenceID && m.reserved == 0
            && m.transactionID == TransactionID(Numbered(c).nextTxID)
            && FloorIDOf(m) == None && FloorRequestIDOf(m) == Some(requestID)
  {
    var m := ReleaseMsg(c, requestID).(version := c.config.version);
    OneSmallAttribute(m, FLOOR_REQUEST_ID, PutU16(requestID));
    OneAttribute(Received(m), FLOOR_REQUEST_ID, PutU16(requestID), FLOOR_ID);
  }

  lemma InfoArrives(m: Msg, floor: u16, requestID: u16, status: u8)
    requires Supported(m) && m.attributes == WithInfo([], requestID, status, floor)
    ensures Received(m).primitive == m.primitive && Received(m).transactionID == m.transactionID
    ensures Infos(Received(m).attributes) == [TheInfo(requestID, status, floor)]
    ensures Reading(Received(m), requestID, status, floor)
  {
    StatusMessageReads(m, requestID, status, floor);
  }

  lemma SlotSmall(typ: u8, value: seq<u8>)
    requires |value| <= 100
    ensures Slot(Plain(typ, value)) <= 108
  {
    PaddingFormula(2 + |value|);
  }

  lemma TwoAttributes(m: Msg, a: Attribute, b: Attribute)
    requires Supported(m) && m.attributes == [a] + [b] && Fits(a) && Fits(b)
    requires Slot(a) <= 108 && Slot(b) <= 108
    ensures WellFormed(m) && Received(m) == m.(payloadLength := PayloadWords(m.attributes))
  {
    SizeCons(a, [b]);
    SizeCons(b, []);
    assert [b] + [] == [b];
    RoundTripIff(m);
  }

  lemma ErrorArrives(req: Msg, why: Refusal)
    requires Speaks(req.version)
    ensures var m := Received(FS.Refused(req, why));
            m.primitive == ERROR && m.transactionID == req.transactionID
  {
    hide Text, Received, Slot, Decoding, Encoding;
    TextFits(why);
    var code: seq<u8> := [ErrorCode(why)];
    SlotSmall(ERROR_CODE, code);
    SlotSmall(ERROR_INFO, Bytes(Text(why)));
    TwoAttributes(FS.Refused(req, why), Plain(ERROR_CODE, code), Plain(ERROR_INFO, Bytes(Text(why))));
  }

  /** News about some floor: the status of some request for it. */
  predicate IsNews(m: Msg, floor: u16, requestID: u16, status: u8) {
    && m.primitive == FLOOR_REQUEST_STATUS && Infos(m.attributes) == [TheInfo(requestID, status, floor)]
    && Reading(m, requestID, status, floor)
  }

  lemma StatusArrives(req: Msg, floor: u16, requestID: u16, status: Status)
    requires Speaks(req.version)
    ensures var m := Received(FS.StatusReply(req, FS.ReplyVersion(req.version), floor, requestID, status));
            m.transactionID == req.transactionID && IsNews(m, floor, requestID, Code(status))
  {
    hide Received, WithInfo, Reading;
    InfoArrives(FS.StatusReply(req, FS.ReplyVersion(req.version), floor, requestID, status), floor, requestID,
                Code(status));
  }

  lemma NoticeArrives(conf: u32, txID: u16, version: u8, user: u16, floor: u16, requestID: u16)
    requires Speaks(version)
    ensures var m := Received(FS.Notice(conf, txID, version, user, floor, requestID, Released));
            m.transactionID == txID && IsNews(m, floor, requestID, STATUS_RELEASED)
  {
    hide Received, WithInfo, Reading;
    InfoArrives(FS.Notice(conf, txID, version, user, floor, requestID, Released), floor, requestID, Code(Released));
  }

  // ----- clients under old datagrams --------------------------------------

  /** News that tells the client nothing new about its own requests, or an error. */
  predicate Inert(c: Client, m: Msg) {
    || m.primitive == ERROR
    || exists floor: u16, requestID: u16, status: u8 ::
         IsNews(m, floor, requestID, status) && NothingNew(c, floor, requestID, status)
  }

  predicate NothingNew(c: Client, floor: u16, requestID: u16, status: u8) {
    floor in c.active && c.active[floor].requestID == requestID ==>
      status == STATUS_GRANTED && c.active[floor].status == STATUS_GRANTED
  }

  lemma NewsNoted(c: Client, m: Msg, floor: u16, requestID: u16, status: u8)
    requires IsNews(m, floor, requestID, status) && NothingNew(c, floor, requestID, status)
    ensures Notified(c, m).active == c.active
  {
    hide Infos, Reading;
    var info := TheInfo(requestID, status, floor);
    var fl := info.floors[0];
    assert NotedFloors(c, info.floors, requestID, 0, status) == NotedFloor(c, floor, requestID, 0, status);
    assert [info][1..] == [];
    assert NotedInfos(c, [info]) == NotedInfo(c, info);
  }

  lemma InertHandled(c: Client, m: Msg)
    requires Inert(c, m) || m.transactionID in c.pending
    ensures Handled(c, m).active == c.active
  {
    hide Notified, IsNews, NothingNew;
    if m.transactionID !in c.pending && m.primitive != ERROR {
      var floor: u16, requestID: u16, status: u8 :|
        IsNews(m, floor, requestID, status) && NothingNew(c, floor, requestID, status);
      NewsNoted(c, m, floor, requestID, status);
    }
  }

  /** Every datagram is inert or belongs to the transaction. */
  predicate Harmless(c: Client, ds: seq<Msg>, tx: u16) {
    forall i :: 0 <= i < |ds| ==> ds[i].transactionID == tx || Inert(c, ds[i])
  }

  lemma {:induction false} HarmlessHandled(c: Client, ds: seq<Msg>, tx: u16)
    requires Harmless(c, ds, tx) && tx in c.pending
    ensures AllHandled(c, ds).active == c.active
    decreases ds
  {
    hide Handled, IsNews;
    if ds != [] {
      InertHandled(c, ds[0]);
      HandledKeeps(c, ds[0], ds[0]);
      HarmlessHandled(Handled(c, ds[0]), ds[1..], tx);
    }
  }

  lemma {:induction false} ExchangeActive(c: Client, m: Msg, env: nat -> Attempt, attempt: nat, left: nat, wait: nat)
    requires m.transactionID in c.pending && c.pending[m.transactionID].None? && !IsAck(m.primitive)
    requires forall i :: attempt <= i < attempt + left && env(i).Wait? ==>
               Harmless(c, env(i).datagrams, m.transactionID)
    ensures Exchanged(c, m, env, attempt, left, wait).0.active == c.active
    decreases left
  {
    hide AllHandled, IsNews, Copies;
    if left > 0 && env(attempt).Wait? {
      var ds := env(attempt).datagrams;
      HarmlessHandled(Sent(c, m), ds, m.transactionID);
      QuietAttempt(c, m, ds, m);
      var d := AllHandled(Sent(c, m), ds);
      if !env(attempt).closing && d.pending[m.transactionID].None? {
        ExchangeActive(d.(waited := d.waited + wait), m, env, attempt + 1, left - 1, wait * 2);
      }
    }
  }

  lemma {:induction false} FirstForIn(ds: seq<Msg>, tx: u16)
    requires FirstFor(ds, tx).Some?
    ensures FirstFor(ds, tx).value in ds && FirstFor(ds, tx).value.transactionID == tx
  {
    if ds[0].transactionID != tx {
      FirstForIn(ds[1..], tx);
    }
  }

  /** The state of a client whose transaction has completed: as before, but for the reports and what it
      sent. */
  predicate Completed(c: Client, d: Client) {
    d.active == c.active && d.config == c.config && d.nextTxID == c.nextTxID && d.pending == map[] && !d.closed
  }

  /** A transaction in which only inert datagrams come, apart from those carrying its ID, leaves the
      requests alone and ends with the first of the latter. */
  lemma TransactionEnds(c: Client, m: Msg, env: nat -> Attempt)
    requires c.pending == map[] && !c.closed && !IsAck(m.primitive) && Transacted(c, m, env).1.Success?
    requires forall i :: 1 <= i <= c.config.maxRetries && env(i).Wait? ==>
               Harmless(c, env(i).datagrams, m.transactionID)
    ensures var (d, r), x := Transacted(c, m, env), Deciding(env, c.config.maxRetries, m.transactionID);
            && Completed(c, d) && x.Some? && r == Success(x.value) && x.value.transactionID == m.transactionID
            && exists i :: 1 <= i <= c.config.maxRetries && env(i).Wait? && x.value in env(i).datagrams
  {
    hide Copies, Exchanged, Inert;
    var tx, max := m.transactionID, c.config.maxRetries;
    TransactionOutcome(c, m, env);
    ExchangeNumber(Opened(c, tx), m, env);
    forall i | 1 <= i < 1 + max && env(i).Wait? ensures Harmless(Opened(c, tx), env(i).datagrams, tx) {
      StaysHarmless(c, tx, env(i).datagrams);
    }
    ExchangeActive(Opened(c, tx), m, env, 1, max, c.config.t1);
    var n := Quiet(env, 1, max, tx);
    FirstForIn(env(1 + n).datagrams, tx);
  }

  lemma ExchangeNumber(c: Client, m: Msg, env: nat -> Attempt)
    requires m.transactionID in c.pending && c.pending[m.transactionID].None? && !IsAck(m.primitive)
    ensures var d := Exchanged(c, m, env, 1, c.config.maxRetries, c.config.t1).0;
            d.nextTxID == c.nextTxID && d.config == c.config
  {
    hide Exchanged, Copies, Quiet;
    ExchangeOutcome(c, m, env, 1, c.config.maxRetries, c.config.t1);
  }

  lemma StaysHarmless(c: Client, tx: u16, ds: seq<Msg>)
    requires Harmless(c, ds, tx)
    ensures Harmless(Opened(c, tx), ds, tx)
  {
    hide IsNews;
    forall i | 0 <= i < |ds| ensures ds[i].transactionID == tx || Inert(Opened(c, tx), ds[i]) {
      if ds[i].transactionID != tx {
        InertOpened(c, tx, ds[i]);
      }
    }
  }

  lemma InertOpened(c: Client, tx: u16, m: Msg)
    requires Inert(c, m)
    ensures Inert(Opened(c, tx), m)
  {
    hide IsNews;
    if m.primitive != ERROR {
      var floor: u16, requestID: u16, status: u8 :|
        IsNews(m, floor, requestID, status) && NothingNew(c, floor, requestID, status);
      assert NothingNew(Opened(c, tx), floor, requestID, status);
    }
  }

  lemma TransactedNumber(c: Client, m: Msg, env: nat -> Attempt)
    requires !IsAck(m.primitive)
    ensures var d := Transacted(c, m, env).0; d.nextTxID == c.nextTxID && d.config == c.config
  {
    hide Exchanged;
    ExchangeNumber(Opened(c, m.transactionID), m, env);
  }

  lemma AnsweredNumber(c: Client, floor: u16, m: Msg)
    ensures var d := RequestAnswered(c, floor, m).0; d.nextTxID == c.nextTxID && d.config == c.config
    ensures var d := ReleaseAnswered(c, floor, m).0; d.nextTxID == c.nextTxID && d.config == c.config
  {
    hide FloorRequestIDOf, RequestStatusOf;
  }

  /** A request, and a release of an active one, uses up one number, whatever its outcome. */
  lemma OutcomeNumbers(c: Client, floor: u16, env: nat -> Attempt)
    ensures var d := RequestOutcome(c, floor, env).0; d.nextTxID == Numbered(c).nextTxID && d.config == c.config
    ensures floor in c.active ==>
              var d := ReleaseOutcome(c, floor, env).0; d.nextTxID == Numbered(c).nextTxID && d.config == c.config
  {
    hide Transacted, RequestAnswered, ReleaseAnswered;
    var m := RequestMsg(c, floor);
    TransactedNumber(Numbered(c), m, env);
    var (d, r) := Transacted(Numbered(c), m, env);
    if r.Success? {
      AnsweredNumber(d, floor, r.value);
    }
    if floor in c.active {
      var n := ReleaseMsg(c, c.active[floor].requestID);
      TransactedNumber(Numbered(c), n, env);
      var (e, q) := Transacted(Numbered(c), n, env);
      if q.Success? {
        AnsweredNumber(e, floor, q.value);
      }
    }
  }
}
