/** How requests and releases over TCP come out, who is told of a release, and the request IDs. */
module TcpOutcomes {
  import opened Wrappers
  import opened Octets
  import opened FloorState
  import opened FloorServer
  import opened TcpServer
  import opened TcpRuns

  // ----- undisturbed -------------------------------------------------------

  /** `t` is `s` but for the handler of `u`, the floor `k`, the counter, and what has been said. */
  predicate Comes(s: System, t: System, u: u16, h: Handler, said: seq<Output>, k: u16, f: Floor) {
    && t.handlers == s.handlers[u := h] && t.floors == s.floors[k := f] && t.sessions == s.sessions
    && t.out == s.out + said
  }

  function Settled(u: u16, r: u16, grant: bool): Floor {
    if grant then Floor(Granted, u, r, PRIORITY_NORMAL) else Floor(Denied, 0, 0, PRIORITY_NORMAL)
  }

  function Answer(grant: bool): Status {
    if grant then Granted else Denied
  }

  lemma FoundGoesOn(s: System, t: System, u: u16, k: u16, grant: bool, f: Floor)
    requires Comes(s, t, u, Found(k, grant), [], k, f)
    ensures u in Advance(t, u).handlers
    ensures var r := ID(t.ticks + 1);
            if f.status.Released?
            then Comes(s, Advance(Advance(t, u), u), u, Taken(k, r, grant), [], k,
                       Floor(Pending, u, r, PRIORITY_NORMAL))
            else Comes(s, Advance(Advance(t, u), u), u, TcpServer.Refused(k, r), [Error(u)], k, f)
  {
    hide ID;
    assert s.out + [] == s.out;
  }

  lemma TakenGoesOn(s: System, t: System, u: u16, k: u16, r: u16, grant: bool)
    requires Comes(s, t, u, Taken(k, r, grant), [], k, Floor(Pending, u, r, PRIORITY_NORMAL))
    ensures u in Advance(t, u).handlers
    ensures Comes(s, Advance(Advance(t, u), u), u, TcpServer.Decided(k, r, grant), [Status(u, k, r, Pending)], k,
                  Settled(u, r, grant))
  {
    assert s.out + [] == s.out;
  }

  lemma DecidedGoesOn(s: System, t: System, u: u16, k: u16, r: u16, grant: bool, f: Floor)
    requires Comes(s, t, u, TcpServer.Decided(k, r, grant), [Status(u, k, r, Pending)], k, f)
    ensures u in Advance(t, u).handlers
    ensures Comes(s, Advance(Advance(t, u), u), u, Idle,
                  [Status(u, k, r, Pending), Status(u, k, r, Answer(grant)),
                   Call(if grant then OnGranted(k, u, r) else OnDenied(k, u, r))], k, f)
  {
    var a, b := Status(u, k, r, Pending), Status(u, k, r, Answer(grant));
    var c := Call(if grant then OnGranted(k, u, r) else OnDenied(k, u, r));
    assert s.out + [a] + [b] == s.out + [a, b] && s.out + [a, b] + [c] == s.out + [a, b, c];
  }

  function Asking(u: u16, k: u16, grant: bool, n: nat): seq<(u16, Action)> {
    [(u, FloorRequest(k, grant))] + Undisturbed(u, n)
  }

  lemma AskingStarts(s: System, u: u16, k: u16, grant: bool, n: nat)
    requires u in s.handlers && s.handlers[u].Idle?
    ensures var s0 := Step(s, u, FloorRequest(k, grant));
            && Run(s, Asking(u, k, grant, n)) == Ahead(s0, u, n) && s0.ticks == s.ticks
            && Comes(s, s0, u, Found(k, grant), [], k, FloorAt(s, k))
  {
    assert Asking(u, k, grant, n)[1..] == Undisturbed(u, n);
    RunUndisturbed(Step(s, u, FloorRequest(k, grant)), u, n);
    assert s.out + [] == s.out;
  }

  lemma TakenEnds(s: System, t: System, u: u16, k: u16, r: u16, grant: bool)
    requires Comes(s, t, u, Taken(k, r, grant), [], k, Floor(Pending, u, r, PRIORITY_NORMAL)) && u in t.handlers
    ensures Comes(s, Ahead(t, u, 4), u, Idle,
                  [Status(u, k, r, Pending), Status(u, k, r, Answer(grant)),
                   Call(if grant then OnGranted(k, u, r) else OnDenied(k, u, r))], k, Settled(u, r, grant))
  {
    hide Advance, Comes, Step, Ahead, Settled, Answer;
    AheadTwo(t, u, 2);
    TakenGoesOn(s, t, u, k, r, grant);
    var next := Advance(Advance(t, u), u);
    ComesHandles(s, next, u, TcpServer.Decided(k, r, grant), [Status(u, k, r, Pending)], k, Settled(u, r, grant));
    AheadTwo(next, u, 0);
    DecidedGoesOn(s, next, u, k, r, grant, Settled(u, r, grant));
    AheadNone(Advance(Advance(next, u), u), u);
  }

  /** Nobody else interfering, a request for a free floor is decided as it should be: the floor is Granted to
      the user, or Denied and without owner, and the client is told Pending and then the decision, which is
      also what is reported. */
  lemma UndisturbedDecision(s: System, u: u16, k: u16, grant: bool)
    requires u in s.handlers && s.handlers[u].Idle? && FloorAt(s, k).status.Released?
    ensures var t, r := Run(s, Asking(u, k, grant, 6)), ID(s.ticks + 1);
            Comes(s, t, u, Idle, [Status(u, k, r, Pending), Status(u, k, r, Answer(grant)),
                                  Call(if grant then OnGranted(k, u, r) else OnDenied(k, u, r))],
                  k, Settled(u, r, grant))
  {
    hide Advance, Comes, Step, Ahead, Run, Asking, Settled, Answer, ID;
    var s0, r := Step(s, u, FloorRequest(k, grant)), ID(s.ticks + 1);
    AskingStarts(s, u, k, grant, 6);
    ComesHandles(s, s0, u, Found(k, grant), [], k, FloorAt(s, k));
    AheadTwo(s0, u, 4);
    FoundGoesOn(s, s0, u, k, grant, FloorAt(s, k));
    var s2 := Advance(Advance(s0, u), u);
    ComesHandles(s, s2, u, Taken(k, r, grant), [], k, Floor(Pending, u, r, PRIORITY_NORMAL));
    TakenEnds(s, s2, u, k, r, grant);
  }

  lemma AheadNone(s: System, u: u16)
    ensures Ahead(s, u, 0) == s
  {
  }

  lemma ComesHandles(s: System, t: System, u: u16, h: Handler, said: seq<Output>, k: u16, f: Floor)
    requires Comes(s, t, u, h, said, k, f)
    ensures u in t.handlers && t.handlers[u] == h
  {
  }

  /** A request for a floor that is not free leaves the floor alone: one error, and the denial reported. */
  lemma UndisturbedRefusal(s: System, u: u16, k: u16, grant: bool)
    requires u in s.handlers && s.handlers[u].Idle? && !FloorAt(s, k).status.Released?
    ensures var t, r := Run(s, Asking(u, k, grant, 3)), ID(s.ticks + 1);
            Comes(s, t, u, Idle, [Error(u), Call(OnDenied(k, u, r))], k, FloorAt(s, k))
  {
    hide Advance, Comes, Step, Ahead, Run, Asking, ID;
    var s0, r := Step(s, u, FloorRequest(k, grant)), ID(s.ticks + 1);
    AskingStarts(s, u, k, grant, 3);
    ComesHandles(s, s0, u, Found(k, grant), [], k, FloorAt(s, k));
    AheadTwo(s0, u, 1);
    FoundGoesOn(s, s0, u, k, grant, FloorAt(s, k));
    var s2 := Advance(Advance(s0, u), u);
    ComesHandles(s, s2, u, TcpServer.Refused(k, r), [Error(u)], k, FloorAt(s, k));
    AheadOne(s2, u);
    RefusedGoesOn(s, s2, u, k, r, FloorAt(s, k));
  }

  lemma AheadOne(s: System, u: u16)
    requires u in s.handlers
    ensures Ahead(s, u, 1) == Advance(s, u)
  {
    hide Advance;
    assert Ahead(s, u, 1) == Ahead(Step(s, u, Continue), u, 0);
  }

  lemma RefusedGoesOn(s: System, t: System, u: u16, k: u16, r: u16, f: Floor)
    requires Comes(s, t, u, TcpServer.Refused(k, r), [Error(u)], k, f) && u in t.handlers
    ensures Comes(s, Advance(t, u), u, Idle, [Error(u), Call(OnDenied(k, u, r))], k, f)
  {
    assert s.out + [Error(u)] + [Call(OnDenied(k, u, r))] == s.out + [Error(u), Call(OnDenied(k, u, r))];
  }

  function Releasing(u: u16, k: u16, r: u16, n: nat): seq<(u16, Action)> {
    [(u, FloorRelease(k, r))] + Undisturbed(u, n)
  }

  lemma ReleasingStarts(s: System, u: u16, k: u16, r: u16, n: nat)
    requires u in s.handlers && s.handlers[u].Idle? && k in s.floors
    ensures var s0 := Step(s, u, FloorRelease(k, r));
            && Run(s, Releasing(u, k, r, n)) == Ahead(s0, u, n)
            && Comes(s, s0, u, TcpServer.Releasing(k, r), [], k, s.floors[k])
  {
    assert Releasing(u, k, r, n)[1..] == Undisturbed(u, n);
    RunUndisturbed(Step(s, u, FloorRelease(k, r)), u, n);
    assert s.out + [] == s.out && s.floors[k := s.floors[k]] == s.floors;
  }

  lemma ReleasingGoesOn(s: System, t: System, u: u16, k: u16, r: u16, f: Floor)
    requires Comes(s, t, u, TcpServer.Releasing(k, r), [], k, f) && u in t.handlers && u != 0
    ensures if f.owner == u then Comes(s, Advance(t, u), u, TcpServer.Freed(k, r), [], k, Floor(Released, 0, 0, 0))
            else Comes(s, Advance(t, u), u, Idle, [Error(u)], k, f)
  {
    assert s.out + [] == s.out;
  }

  lemma FreedGoesOn(s: System, t: System, u: u16, k: u16, r: u16, f: Floor)
    requires Comes(s, t, u, TcpServer.Freed(k, r), [], k, f)
    ensures u in Advance(t, u).handlers
    ensures Comes(s, Advance(Advance(t, u), u), u, TcpServer.Reported(k, r),
                  [Status(u, k, r, Released), Call(OnReleased(k, u))], k, f)
  {
    var a, b := Status(u, k, r, Released), Call(OnReleased(k, u));
    assert s.out + [] == s.out && s.out + [a] + [b] == s.out + [a, b];
  }

  /** A release by its owner frees the floor, is answered and reported; the others are told next. */
  lemma UndisturbedRelease(s: System, u: u16, k: u16, r: u16)
    requires u in s.handlers && s.handlers[u].Idle? && u != 0 && Owns(s, u, k)
    ensures Comes(s, Run(s, Releasing(u, k, r, 3)), u, TcpServer.Reported(k, r),
                  [Status(u, k, r, Released), Call(OnReleased(k, u))], k, Floor(Released, 0, 0, 0))
  {
    hide Advance, Comes, Step, Ahead, Run, Releasing;
    var s0 := Step(s, u, FloorRelease(k, r));
    ReleasingStarts(s, u, k, r, 3);
    ComesHandles(s, s0, u, TcpServer.Releasing(k, r), [], k, s.floors[k]);
    AheadMore(s0, u, 2);
    ReleasingGoesOn(s, s0, u, k, r, s.floors[k]);
    var s1 := Advance(s0, u);
    ComesHandles(s, s1, u, TcpServer.Freed(k, r), [], k, Floor(Released, 0, 0, 0));
    AheadTwo(s1, u, 0);
    FreedGoesOn(s, s1, u, k, r, Floor(Released, 0, 0, 0));
    AheadNone(Advance(Advance(s1, u), u), u);
  }

  lemma AheadMore(s: System, u: u16, n: nat)
    requires u in s.handlers
    ensures Ahead(s, u, n + 1) == Ahead(Advance(s, u), u, n)
  {
    hide Advance;
  }

  /** A release by anybody else is refused with an error, and leaves the floor alone. */
  lemma UndisturbedRefusedRelease(s: System, u: u16, k: u16, r: u16)
    requires u in s.handlers && s.handlers[u].Idle? && u != 0 && k in s.floors && s.floors[k].owner != u
    ensures Comes(s, Run(s, Releasing(u, k, r, 1)), u, Idle, [Error(u)], k, s.floors[k])
  {
    hide Advance, Comes, Step, Ahead, Run, Releasing;
    var s0 := Step(s, u, FloorRelease(k, r));
    ReleasingStarts(s, u, k, r, 1);
    ComesHandles(s, s0, u, TcpServer.Releasing(k, r), [], k, s.floors[k]);
    AheadOne(s0, u);
    ReleasingGoesOn(s, s0, u, k, r, s.floors[k]);
  }

  // ----- who is told of a release ------------------------------------------

  /** The recipients a handler has still to tell, and of what. */
  function Untold(h: Handler): seq<(u16, nat)> {
    if h.Telling? || h.LeftTelling? then h.recipients else []
  }

  lemma {:induction false} AllRecipients(sessions: map<u16, nat>, order: seq<u16>, to: u16)
    ensures to in order && to in sessions ==> (to, sessions[to]) in Recipients(sessions, order)
    ensures forall x :: x in Recipients(sessions, order) ==> x.0 in order && x.0 in sessions && x.1 == sessions[x.0]
    decreases order
  {
    if order != [] {
      AllRecipients(sessions, order[1..], to);
    }
  }

  /** A broadcast begins with every session registered but that of the user who released. */
  lemma SnapshotHasAll(s: System, u: u16, order: seq<u16>, to: u16)
    requires u in s.handlers && (s.handlers[u].Reported? || s.handlers[u].LeftRead?)
    requires multiset(order) == multiset(s.sessions.Keys - {u}) && to in s.sessions && to != u
    ensures var h, t := s.handlers[u], Step(s, u, Snapshot(order));
            && u in t.handlers && (h.Reported? ==> t.handlers[u].Telling?)
                 && (h.LeftRead? ==> t.handlers[u].LeftTelling?)
            && t.handlers[u].floor == h.floor && t.handlers[u].requestID == h.requestID
            && (to, s.sessions[to]) in Untold(t.handlers[u])
            && forall x :: x in Untold(t.handlers[u]) ==> x.0 in s.sessions && x.0 != u && s.sessions[x.0] == x.1
  {
    assert to in multiset(order) && to in order;
    AllRecipients(s.sessions, order, to);
    assert forall x: u16 :: x in order ==> x in multiset(order);
  }

  /** Between the snapshot and the end of the broadcast. */
  predicate Tells(h: Handler, k: u16, r: u16, to: (u16, nat)) {
    (h.Telling? || h.LeftTelling?) && h.floor == k && h.requestID == r && to in h.recipients
  }

  lemma TellsNext(s: System, u: u16, k: u16, r: u16, to: (u16, nat))
    requires u in s.handlers && Tells(s.handlers[u], k, r, to)
    requires to.0 in s.sessions && s.sessions[to.0] == to.1
    ensures Tells(Next(s, u), k, r, to) || Says(s, u) == Some(Notice(to.0, u, k, r))
  {
    hide Change;
  }

  /** A step changes its own handler alone. */
  predicate OnlyMoves(s: System, t: System, v: u16) {
    forall u <- s.handlers :: u != v ==> u in t.handlers && t.handlers[u] == s.handlers[u]
  }

  lemma AdvanceMoves(s: System, v: u16)
    requires v in s.handlers
    ensures OnlyMoves(s, Advance(s, v), v)
  {
    hide Says, Change, Next;
  }

  lemma BegunMoves(s: System, v: u16, a: Action)
    requires v in s.handlers
    ensures OnlyMoves(s, Begun(s, v, a), v)
  {
  }

  lemma SnappedMoves(s: System, v: u16, order: seq<u16>)
    requires v in s.handlers
    ensures OnlyMoves(s, Snapped(s, v, order), v)
  {
    hide Recipients;
  }

  lemma HandlerLeft(s: System, v: u16, a: Action, u: u16)
    requires u in s.handlers && v != u
    ensures u in Step(s, v, a).handlers && Step(s, v, a).handlers[u] == s.handlers[u]
  {
    hide Advance, Begun, Snapped;
    if v in s.handlers {
      AdvanceMoves(s, v);
      BegunMoves(s, v, a);
      if a.Snapshot? {
        SnappedMoves(s, v, a.order);
      }
    }
  }

  lemma HandlerNext(s: System, u: u16, a: Action)
    requires u in s.handlers && (s.handlers[u].Telling? || s.handlers[u].LeftTelling?)
    ensures u in Step(s, u, a).handlers
    ensures Step(s, u, a).handlers[u] == if a.Continue? then Next(s, u) else s.handlers[u]
  {
    hide Says, Change, Next;
  }

  lemma TellsOn(s: System, v: u16, a: Action, u: u16, k: u16, r: u16, to: (u16, nat))
    requires u in s.handlers && Tells(s.handlers[u], k, r, to)
    requires to.0 in s.sessions && s.sessions[to.0] == to.1
    ensures var t := Step(s, v, a);
            && u in t.handlers
            && (Tells(t.handlers[u], k, r, to) || t.out == s.out + [Notice(to.0, u, k, r)])
  {
    hide Step, Says, Next;
    if v != u {
      HandlerLeft(s, v, a, u);
    } else {
      HandlerNext(s, u, a);
      TellsNext(s, u, k, r, to);
      StepOut(s, u, a);
    }
  }

  lemma OutGrows(s: System, v: u16, a: Action)
    ensures |Step(s, v, a).out| >= |s.out| && Step(s, v, a).out[..|s.out|] == s.out
  {
    hide Step, Says;
    StepOut(s, v, a);
  }

  lemma {:induction false} RunOutGrows(s: System, moves: seq<(u16, Action)>)
    ensures |Run(s, moves).out| >= |s.out| && Run(s, moves).out[..|s.out|] == s.out
    decreases moves
  {
    hide Step;
    if moves != [] {
      var t := Step(s, moves[0].0, moves[0].1);
      OutGrows(s, moves[0].0, moves[0].1);
      RunOutGrows(t, moves[1..]);
      assert Run(s, moves).out[..|s.out|] == Run(s, moves).out[..|t.out|][..|s.out|];
    }
  }

  /** The connection stays registered during the run. */
  predicate Registered(s: System, moves: seq<(u16, Action)>, to: (u16, nat))
    decreases moves
  {
    && to.0 in s.sessions && s.sessions[to.0] == to.1
    && (moves != [] ==> Registered(Step(s, moves[0].0, moves[0].1), moves[1..], to))
  }

  /** In every interleaving, a recipient of a broadcast whose connection stays gets its notice before the
      handler goes on to anything else. */
  lemma {:induction false} EveryoneIsTold(s: System, moves: seq<(u16, Action)>, u: u16, k: u16, r: u16, to: (u16, nat))
    requires u in s.handlers && Tells(s.handlers[u], k, r, to) && Registered(s, moves, to)
    requires var t := Run(s, moves); u in t.handlers && !t.handlers[u].Telling? && !t.handlers[u].LeftTelling?
    ensures var out := Run(s, moves).out; exists i :: |s.out| <= i < |out| && out[i] == Notice(to.0, u, k, r)
    decreases moves
  {
    hide Step;
    if moves != [] {
      var t := Step(s, moves[0].0, moves[0].1);
      var out := Run(s, moves).out;
      TellsOn(s, moves[0].0, moves[0].1, u, k, r, to);
      OutGrows(s, moves[0].0, moves[0].1);
      RunOutGrows(t, moves[1..]);
      if Tells(t.handlers[u], k, r, to) {
        EveryoneIsTold(t, moves[1..], u, k, r, to);
        var i :| |t.out| <= i < |out| && out[i] == Notice(to.0, u, k, r);
      } else {
        assert out[|s.out|] == out[..|t.out|][|s.out|] == Notice(to.0, u, k, r);
      }
    }
  }

  lemma NoticeFrom(s: System, v: u16)
    requires v in s.handlers && Says(s, v).Some? && Says(s, v).value.Notice?
    ensures var o := Says(s, v).value;
            && o.user == v && o.to in s.sessions
            && Tells(s.handlers[v], o.floor, o.requestID, (o.to, s.sessions[o.to]))
  {
    hide Change;
    var h, o := s.handlers[v], Says(s, v).value;
    assert (h.Telling? || h.LeftTelling?) && h.recipients[0] == (o.to, s.sessions[o.to]);
  }

  /** A notice leaves a handler only for a recipient of its broadcast, and only on the connection that was
      registered when the broadcast began. */
  lemma NoticeIsOwed(s: System, v: u16, a: Action, u: u16, to: u16, k: u16, r: u16)
    requires Step(s, v, a).out == s.out + [Notice(to, u, k, r)]
    ensures v == u && u in s.handlers && to in s.sessions && Tells(s.handlers[u], k, r, (to, s.sessions[to]))
  {
    StepOut(s, v, a);
    hide Step;
    assert (s.out + [Notice(to, u, k, r)])[|s.out|] == Notice(to, u, k, r);
    if a.Continue? && v in s.handlers && Says(s, v).Some? {
      assert (s.out + [Says(s, v).value])[|s.out|] == Says(s, v).value;
      NoticeFrom(s, v);
    }
  }

  // ----- sessions ----------------------------------------------------------

  /** A session is that of its handler's connection, and every connection has a number of its own. */
  predicate SessionOK(s: System, u: u16) {
    u in s.sessions ==> u in s.handlers && !s.handlers[u].Gone? && s.sessions[u] <= s.connections
  }

  /** What a step of `v` may do to the session of `u`; a new session is that of the connection. */
  predicate Sessions(s: System, t: System, v: u16, u: u16, hello: bool) {
    && SessionOK(t, u) && t.connections >= s.connections
    && (u in t.sessions && !(u in s.sessions && s.sessions[u] == t.sessions[u]) ==>
          v == u && hello && t.sessions[u] == s.connections)
  }

  lemma AdvanceSession(s: System, v: u16, u: u16)
    requires SessionOK(s, u) && v in s.handlers
    ensures Sessions(s, Advance(s, v), v, u, false)
  {
    hide Says, Change;
  }

  lemma BegunSession(s: System, v: u16, a: Action, u: u16)
    requires SessionOK(s, u) && v in s.handlers
    ensures Sessions(s, Begun(s, v, a), v, u, a.Hello?)
  {
  }

  lemma SnappedSession(s: System, v: u16, order: seq<u16>, u: u16)
    requires SessionOK(s, u) && v in s.handlers
    ensures Sessions(s, Snapped(s, v, order), v, u, false)
  {
    hide Recipients;
  }

  lemma StepSession(s: System, v: u16, a: Action, u: u16)
    requires SessionOK(s, u)
    ensures Sessions(s, Step(s, v, a), v, u, a.Hello?)
  {
    hide Advance, Begun, Snapped;
    if v in s.handlers {
      AdvanceSession(s, v, u);
      BegunSession(s, v, a, u);
      if a.Snapshot? {
        SnappedSession(s, v, a.order, u);
      }
    }
  }

  /** Over every run a user that has said goodbye has no session, until it connects and says Hello again. */
  lemma {:induction false} GoneIsUnregistered(moves: seq<(u16, Action)>, u: u16)
    ensures SessionOK(Run(EMPTY, moves), u)
    decreases |moves|
  {
    hide Step, SessionOK;
    if moves == [] {
      NoSessions(u);
    } else {
      var before, last := moves[..|moves| - 1], moves[|moves| - 1];
      GoneIsUnregistered(before, u);
      RunSnoc(EMPTY, moves);
      StepSession(Run(EMPTY, before), last.0, last.1, u);
    }
  }

  lemma NoSessions(u: u16)
    ensures SessionOK(Run(EMPTY, []), u)
  {
  }

  // ----- request IDs -------------------------------------------------------

  /** The step gives a request its ID. */
  predicate Draws(s: System, v: u16, a: Action) {
    a.Continue? && v in s.handlers && s.handlers[v].Found?
  }

  predicate DrawsAt(moves: seq<(u16, Action)>, n: nat)
    requires n < |moves|
  {
    Draws(Run(EMPTY, moves[..n]), moves[n].0, moves[n].1)
  }

  /** The ID the request has after step `n`. */
  function Drawn(moves: seq<(u16, Action)>, n: nat): u16
    requires n < |moves|
  {
    var s := Step(Run(EMPTY, moves[..n]), moves[n].0, moves[n].1);
    if moves[n].0 in s.handlers && s.handlers[moves[n].0].Numbered? then s.handlers[moves[n].0].requestID else 0
  }

  lemma StepDraws(s: System, v: u16, a: Action)
    ensures Step(s, v, a).ticks >= s.ticks
    ensures Draws(s, v, a) ==>
              var t := Step(s, v, a);
              && t.ticks == s.ticks + 1 && v in t.handlers
              && t.handlers[v] == Numbered(s.handlers[v].floor, ID(t.ticks), s.handlers[v].grant)
  {
    hide Says, Change, ID;
  }

  lemma {:induction false} TicksGrow(moves: seq<(u16, Action)>, n: nat, m: nat)
    requires n <= m <= |moves|
    ensures Run(EMPTY, moves[..n]).ticks <= Run(EMPTY, moves[..m]).ticks
    decreases m
  {
    hide Step;
    if n < m {
      TicksGrow(moves, n, m - 1);
      RunSnoc(EMPTY, moves[..m]);
      assert moves[..m][..m - 1] == moves[..m - 1];
      StepDraws(Run(EMPTY, moves[..m - 1]), moves[m - 1].0, moves[m - 1].1);
    }
  }

  lemma SmallIDs(a: nat, b: nat)
    requires a < b < 0x1_0000
    ensures ID(a) == a && ID(b) == b
  {
  }

  /** Two requests never have the same ID, whoever makes them, within 65536 increments of the counter. */
  lemma RequestIDsDiffer(moves: seq<(u16, Action)>, i: nat, j: nat)
    requires i < j < |moves| && DrawsAt(moves, i) && DrawsAt(moves, j) && Run(EMPTY, moves[..j + 1]).ticks < 0x1_0000
    ensures Drawn(moves, i) != Drawn(moves, j) && Drawn(moves, i) != 0
  {
    hide Step, Run, ID;
    StepDraws(Run(EMPTY, moves[..i]), moves[i].0, moves[i].1);
    StepDraws(Run(EMPTY, moves[..j]), moves[j].0, moves[j].1);
    forall n | n == i || n == j
      ensures Run(EMPTY, moves[..n + 1]) == Step(Run(EMPTY, moves[..n]), moves[n].0, moves[n].1)
    {
      RunSnoc(EMPTY, moves[..n + 1]);
      assert moves[..n + 1][..n] == moves[..n];
    }
    TicksGrow(moves, i + 1, j);
    SmallIDs(Run(EMPTY, moves[..i + 1]).ticks, Run(EMPTY, moves[..j + 1]).ticks);
  }
}
