/** The exchanges between the TCP floor control server and each of its clients, in every interleaving of
    the connection handlers: what is answered and reported, in which order, and to whom. */
module TcpExchanges {
  import opened Wrappers
  import opened Octets
  import opened FloorState
  import opened FloorServer
  import opened TcpServer
  import opened TcpRuns

  // ----- whole exchanges ---------------------------------------------------

  /** Answers to the client of `u`, and callbacks about it. */
  predicate IsOwn(o: Output, u: u16) {
    match o
    case Status(to, _, _, _) => to == u
    case Notice(_, _, _, _) => false
    case Error(to) => to == u
    case GoodbyeAck(to) => to == u
    case Call(OnGranted(_, user, _)) => user == u
    case Call(OnReleased(_, user)) => user == u
    case Call(OnDenied(_, user, _)) => user == u
    case Call(OnConnect(_, user)) => user == u
  }

  function Own(out: seq<Output>, u: u16): seq<Output> {
    if out == [] then []
    else Own(out[..|out| - 1], u) + (if IsOwn(out[|out| - 1], u) then [out[|out| - 1]] else [])
  }

  lemma OwnSnoc(out: seq<Output>, o: Output, u: u16)
    ensures Own(out + [o], u) == if IsOwn(o, u) then Own(out, u) + [o] else Own(out, u)
  {
    assert (out + [o])[..|out + [o]| - 1] == out;
    assert Own(out, u) + [] == Own(out, u);
  }

  /** A request that is decided: Pending, the decision, and the callback for it, all about one floor and one
      request ID. */
  predicate Decision(e: seq<Output>, u: u16) {
    && |e| == 3 && e[0].Status?
    && var (k, r) := (e[0].floor, e[0].requestID);
       && e[0] == Status(u, k, r, Pending)
       && if e[1] == Status(u, k, r, Granted) then e[2] == Call(OnGranted(k, u, r))
          else e[1] == Status(u, k, r, Denied) && e[2] == Call(OnDenied(k, u, r))
  }

  /** A request refused: an error, and the callback. */
  predicate Refusal(e: seq<Output>, u: u16) {
    |e| == 2 && e[0] == Error(u) && e[1].Call? && e[1].callback.OnDenied? && e[1].callback.user == u
  }

  /** A release answered, and reported. */
  predicate Release(e: seq<Output>, u: u16) {
    |e| == 2 && e[0].Status? && e[0] == Status(u, e[0].floor, e[0].requestID, Released)
      && e[1] == Call(OnReleased(e[0].floor, u))
  }

  /** A release refused, a release reported in a Goodbye, or the Goodbye's own answer. */
  predicate Single(e: seq<Output>, u: u16) {
    |e| == 1 && (e[0] == Error(u) || e[0] == GoodbyeAck(u)
                 || (e[0].Call? && e[0].callback.OnReleased? && e[0].callback.user == u))
  }

  predicate Exchange(e: seq<Output>, u: u16) {
    Decision(e, u) || Refusal(e, u) || Release(e, u) || Single(e, u)
  }

  /** One whole exchange after another. */
  predicate Whole(os: seq<Output>, u: u16)
    decreases |os|
  {
    os == [] || exists n :: 0 <= n < |os| && Exchange(os[n..], u) && Whole(os[..n], u)
  }

  /** What the handler has already said of the exchange it is in. */
  function Said(h: Handler, u: u16): seq<Output> {
    match h
    case Refused(_, _) => [Error(u)]
    case Sleeping(k, r, _) => [Status(u, k, r, Pending)]
    case Decided(k, r, _) => [Status(u, k, r, Pending)]
    case Announced(k, r, granted) => [Status(u, k, r, Pending), Status(u, k, r, if granted then Granted else Denied)]
    case Answered(k, r) => [Status(u, k, r, Released)]
    case _ => []
  }

  /** Whole exchanges, and then `open`. */
  predicate Conversing(os: seq<Output>, open: seq<Output>, u: u16) {
    && |os| >= |open| && os[|os| - |open|..] == open && Whole(os[..|os| - |open|], u)
  }

  predicate TalkOK(s: System, u: u16) {
    if u in s.handlers then Conversing(Own(s.out, u), Said(s.handlers[u], u), u) else Own(s.out, u) == []
  }

  lemma SaidMore(os: seq<Output>, open: seq<Output>, o: Output, u: u16)
    requires Conversing(os, open, u)
    ensures Conversing(os + [o], open + [o], u)
  {
    hide Whole;
    var n := |os| - |open|;
    assert (os + [o])[..n] == os[..n] && (os + [o])[n..] == os[n..] + [o];
  }

  lemma SaidAll(os: seq<Output>, open: seq<Output>, u: u16)
    requires Conversing(os, open, u) && Exchange(open, u)
    ensures Conversing(os, [], u)
  {
    hide Exchange;
    var n := |os| - |open|;
    ExchangeNotEmpty(open, u);
    assert os[..|os|] == os && os[|os|..] == [];
    assert Exchange(os[n..], u) && Whole(os[..n], u);
  }

  lemma ExchangeNotEmpty(e: seq<Output>, u: u16)
    requires Exchange(e, u)
    ensures e != []
  {
  }

  /** What the next operation adds to the exchange. */
  lemma SaysNext(s: System, u: u16)
    requires u in s.handlers && PlaceOK(s, u)
    ensures var before, after := Said(s.handlers[u], u), Said(Next(s, u), u);
            match Says(s, u)
            case None => after == before
            case Some(o) =>
              if IsOwn(o, u) then after == before + [o] || (after == [] && Exchange(before + [o], u))
              else after == before
  {
  }

  lemma OwnTalk(s: System, u: u16)
    requires u in s.handlers && PlaceOK(s, u) && TalkOK(s, u)
    ensures TalkOK(Advance(s, u), u)
  {
    hide Says, Next, Change, Said, Conversing, Exchange, Own, IsOwn, PlaceOK;
    SaysNext(s, u);
    var os, open := Own(s.out, u), Said(s.handlers[u], u);
    if Says(s, u).Some? {
      var o := Says(s, u).value;
      OwnSnoc(s.out, o, u);
      if IsOwn(o, u) {
        SaidMore(os, open, o, u);
        if Said(Next(s, u), u) != open + [o] {
          SaidAll(os + [o], open + [o], u);
        }
      }
    }
  }

  lemma OthersSay(s: System, v: u16, u: u16)
    requires v in s.handlers && Says(s, v).Some? && u != v
    ensures !IsOwn(Says(s, v).value, u)
  {
  }

  lemma BegunTalk(s: System, u: u16, a: Action)
    requires u in s.handlers && TalkOK(s, u)
    ensures TalkOK(Begun(s, u, a), u)
  {
    hide Conversing, Own;
  }

  lemma SnapTalk(s: System, u: u16, order: seq<u16>)
    requires u in s.handlers && TalkOK(s, u)
    ensures TalkOK(Snapped(s, u, order), u)
  {
    hide Conversing, Own, Recipients;
  }

  lemma StepTalk(s: System, v: u16, a: Action, u: u16)
    requires Inv(s) && TalkOK(s, u) && u != 0 && v != 0
    ensures TalkOK(Step(s, v, a), u)
  {
    hide Says, Next, Conversing, Own, IsOwn, Advance, Begun, Snapped, Inv, PlaceOK, FloorOK;
    if v == u {
      PlacesOK(s, u);
      if u in s.handlers {
        OwnTalk(s, u);
        if a.Snapshot? {
          SnapTalk(s, u, a.order);
        } else {
          BegunTalk(s, u, a);
        }
      } else {
        Nobody(u);
      }
    } else {
      PlacesOK(s, v);
      hide Step;
      StepFrame(s, v, a, u, 0);
      StepOut(s, v, a);
      if a.Continue? && v in s.handlers && Says(s, v).Some? {
        OthersSay(s, v, u);
        OwnSnoc(s.out, Says(s, v).value, u);
      }
    }
  }

  lemma PlacesOK(s: System, u: u16)
    requires Inv(s)
    ensures PlaceOK(s, u) && FloorOK(s, 0)
  {
  }

  lemma Nobody(u: u16)
    ensures Conversing([], Said(Idle, u), u) && Own([], u) == []
  {
  }

  /** In every interleaving, what the server says to a client and about it is a sequence of whole exchanges:
      Pending, Granted and OnGranted, or Pending, Denied and OnDenied, of one floor and one request ID; an
      error and OnDenied; Released and OnReleased; an error; the releases and the answer of a Goodbye. Only
      the last one may be unfinished, as far as its handler has come. */
  lemma {:induction false} WholeExchanges(moves: seq<(u16, Action)>, u: u16)
    requires Named(moves) && u != 0
    ensures TalkOK(Run(EMPTY, moves), u)
    decreases |moves|
  {
    hide Run, Step, TalkOK, Inv;
    if moves == [] {
      NothingSaid(u);
    } else {
      var before, last := moves[..|moves| - 1], moves[|moves| - 1];
      WholeExchanges(before, u);
      Reachable(before);
      RunSnoc(EMPTY, moves);
      StepTalk(Run(EMPTY, before), last.0, last.1, u);
    }
  }

  lemma NothingSaid(u: u16)
    ensures TalkOK(Run(EMPTY, []), u)
  {
  }

  /** So a client whose handler is idle has had an end to everything. */
  lemma IdleIsWhole(moves: seq<(u16, Action)>, u: u16)
    requires Named(moves) && u != 0
    requires var s := Run(EMPTY, moves); u in s.handlers && s.handlers[u].Idle?
    ensures Whole(Own(Run(EMPTY, moves).out, u), u)
  {
    hide Run, Whole, Own;
    WholeExchanges(moves, u);
    var os := Own(Run(EMPTY, moves).out, u);
    assert os[..|os| - 0] == os;
  }

  // ----- the last answer ---------------------------------------------------

  lemma {:induction false} LastToldOwn(out: seq<Output>, u: u16, k: u16)
    ensures LastTold(out, u, k) == LastTold(Own(out, u), u, k)
    decreases |out|
  {
    hide IsOwn, LastTold;
    if out == [] {
    } else {
      var before, o := out[..|out| - 1], out[|out| - 1];
      assert out == before + [o];
      LastToldOwn(before, u, k);
      OwnSnoc(before, o, u);
      LastToldSay(before, o, u, k);
      LastToldSay(Own(before, u), o, u, k);
      NotOwnSays(o, u);
    }
  }

  lemma NotOwnSays(o: Output, u: u16)
    ensures !IsOwn(o, u) ==> !(o.Status? && o.to == u) && !(o.GoodbyeAck? && o.to == u)
  {
  }

  lemma ExchangeTold(os: seq<Output>, e: seq<Output>, u: u16, k: u16)
    requires Exchange(e, u) && LastTold(os, u, k) != Some(Pending)
    ensures LastTold(os + e, u, k) != Some(Pending)
  {
    hide LastTold;
    LastToldSay(os, e[0], u, k);
    if |e| > 1 {
      assert os + [e[0]] + [e[1]] == os + e[..2];
      LastToldSay(os + [e[0]], e[1], u, k);
    }
    if |e| > 2 {
      assert os + e[..2] + [e[2]] == os + e[..3];
      LastToldSay(os + e[..2], e[2], u, k);
    }
    assert e[..|e|] == e && e[..1] == [e[0]];
  }

  lemma {:induction false} WholeTold(os: seq<Output>, u: u16, k: u16)
    requires Whole(os, u)
    ensures LastTold(os, u, k) != Some(Pending)
    decreases |os|
  {
    hide Exchange;
    if os != [] {
      var n :| 0 <= n < |os| && Exchange(os[n..], u) && Whole(os[..n], u);
      WholeTold(os[..n], u, k);
      ExchangeTold(os[..n], os[n..], u, k);
      assert os[..n] + os[n..] == os;
    }
  }

  /** A client whose handler is idle was not told Pending last about any floor. */
  lemma NeverLeftPending(moves: seq<(u16, Action)>, u: u16, k: u16)
    requires Named(moves) && u != 0
    requires var s := Run(EMPTY, moves); u in s.handlers && s.handlers[u].Idle?
    ensures LastTold(Run(EMPTY, moves).out, u, k) != Some(Pending)
  {
    hide Run, Whole, Own, LastTold;
    IdleIsWhole(moves, u);
    LastToldOwn(Run(EMPTY, moves).out, u, k);
    WholeTold(Own(Run(EMPTY, moves).out, u), u, k);
  }

  // ----- denials -----------------------------------------------------------

  /** The step denies the request `r` of `u` for floor `k`, successfully. */
  predicate Denies(s: System, v: u16, a: Action, u: u16, k: u16, r: u16) {
    && v == u && a.Continue? && u in s.handlers && PendingFor(s, u, k, r)
    && k in Step(s, v, a).floors && Step(s, v, a).floors[k].status.Denied? && Step(s, v, a).floors[k].owner == 0
    && Step(s, v, a).out == s.out
  }

  predicate DeniedAt(moves: seq<(u16, Action)>, n: nat, u: u16, k: u16, r: u16)
    requires n < |moves|
  {
    Denies(Run(EMPTY, moves[..n]), moves[n].0, moves[n].1, u, k, r)
  }

  lemma DecidedAfter(s: System, v: u16, a: Action, u: u16, k: u16, r: u16)
    requires PlaceOK(s, v) && FloorOK(s, k) && u != 0 && v != 0
    requires u in Step(s, v, a).handlers && Step(s, v, a).handlers[u] == Decided(k, r, false)
    ensures (u in s.handlers && s.handlers[u] == Decided(k, r, false)) || Denies(s, v, a, u, k, r)
  {
    hide Says, TcpServer.NoticeTo;
    if v != u {
      StepFrame(s, v, a, u, k);
    } else {
      StepOut(s, v, a);
      SleeperSilent(s, v);
    }
  }

  lemma SleeperSilent(s: System, u: u16)
    ensures u in s.handlers && s.handlers[u].Sleeping? ==> Says(s, u) == None
  {
  }

  /** A handler about to say Denied has denied that request. */
  lemma {:induction false} DenialHappened(moves: seq<(u16, Action)>, u: u16, k: u16, r: u16) returns (n: nat)
    requires Named(moves) && u != 0
    requires var s := Run(EMPTY, moves); u in s.handlers && s.handlers[u] == Decided(k, r, false)
    ensures n < |moves| && DeniedAt(moves, n, u, k, r)
    decreases |moves|
  {
    hide Run, Step, Denies, Inv;
    if moves == [] {
      EmptyRun();
      assert false;
    } else {
      var before, last := moves[..|moves| - 1], moves[|moves| - 1];
      Reachable(before);
      RunSnoc(EMPTY, moves);
      FloorsOK(Run(EMPTY, before), last.0, k);
      DecidedAfter(Run(EMPTY, before), last.0, last.1, u, k, r);
      if Denies(Run(EMPTY, before), last.0, last.1, u, k, r) {
        n := |before|;
      } else {
        n := DenialHappened(before, u, k, r);
        assert before[..n] == moves[..n] && before[n] == moves[n];
      }
    }
  }

  lemma FloorsOK(s: System, u: u16, k: u16)
    requires Inv(s)
    ensures FloorOK(s, k) && PlaceOK(s, u)
  {
  }

  /** Every Denied status is true: it leaves its handler exactly when that has denied this user's request
      for the floor and not said so yet; the callback for the same request is what it says next. */
  lemma DeniedIsTrue(moves: seq<(u16, Action)>, v: u16, a: Action, u: u16, k: u16, r: u16)
    requires Named(moves) && v != 0 && u != 0
    ensures var s := Run(EMPTY, moves);
            && (Step(s, v, a).out == s.out + [Status(u, k, r, Denied)] <==>
                  v == u && a.Continue? && u in s.handlers && s.handlers[u] == Decided(k, r, false))
            && (Step(s, v, a).out == s.out + [Status(u, k, r, Denied)] ==>
                  && (exists n :: 0 <= n < |moves| && DeniedAt(moves, n, u, k, r))
                  && var t := Step(s, v, a);
                     && u in t.handlers && t.handlers[u] == Announced(k, r, false)
                     && Step(t, u, Continue).out == t.out + [Call(OnDenied(k, u, r))])
  {
    hide Run, Denies, Step;
    var s := Run(EMPTY, moves);
    SaysDenied(s, v, a, u, k, r);
    if v == u && a.Continue? && u in s.handlers && s.handlers[u] == Decided(k, r, false) {
      var n := DenialHappened(moves, u, k, r);
      DeniedGoesOn(s, u, a, k, r);
    }
  }

  lemma DeniedGoesOn(s: System, u: u16, a: Action, k: u16, r: u16)
    requires a.Continue? && u in s.handlers && s.handlers[u] == Decided(k, r, false)
    ensures var t := Step(s, u, a);
            && u in t.handlers && t.handlers[u] == Announced(k, r, false)
            && Step(t, u, Continue).out == t.out + [Call(OnDenied(k, u, r))]
  {
  }

  lemma SaysDenied(s: System, v: u16, a: Action, u: u16, k: u16, r: u16)
    ensures Step(s, v, a).out == s.out + [Status(u, k, r, Denied)] <==>
              v == u && a.Continue? && u in s.handlers && s.handlers[u] == Decided(k, r, false)
  {
    StepOut(s, v, a);
    hide Step;
    if a.Continue? && v in s.handlers && Says(s, v).Some? {
      assert (s.out + [Says(s, v).value])[|s.out|] == Says(s, v).value;
      assert (s.out + [Status(u, k, r, Denied)])[|s.out|] == Status(u, k, r, Denied);
    }
  }
}
