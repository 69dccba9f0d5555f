/** The floor control server over TCP. Every connection has its own handler, so handlers interleave:
    a step here is one atomic operation of one handler (a call on a floor, the counter, one message
    or one callback), and `handleFloorRequest` sleeps between Request and Grant. */
module TcpServer {
  import opened Wrappers
  import opened Octets
  import opened FloorState
  import opened FloorServer

  /** Where the handler of a session stands. */
  datatype Handler =
    | Idle
    | Found(floor: u16, grant: bool)
    | Numbered(floor: u16, requestID: u16, grant: bool)
    | Refused(floor: u16, requestID: u16)
    | Taken(floor: u16, requestID: u16, grant: bool)
    | Sleeping(floor: u16, requestID: u16, grant: bool)
    | Decided(floor: u16, requestID: u16, granted: bool)
    | Announced(floor: u16, requestID: u16, granted: bool)
    | Releasing(floor: u16, requestID: u16)
    | Freed(floor: u16, requestID: u16)
    | Answered(floor: u16, requestID: u16)
    | Reported(floor: u16, requestID: u16)
    | Telling(floor: u16, requestID: u16, recipients: seq<(u16, nat)>)
    | Scanning(unread: set<u16>, owned: seq<u16>)
    | Leaving(todo: seq<u16>)
    | LeftOne(floor: u16, todo: seq<u16>)
    | LeftRead(floor: u16, requestID: u16, todo: seq<u16>)
    | LeftTelling(floor: u16, requestID: u16, recipients: seq<(u16, nat)>, todo: seq<u16>)
    | Closing
    | Gone

  /** What the server says about requests: its FloorRequestStatus messages, the answers to a client's
      own requests and the notices of other users' releases, its errors, and the callbacks. */
  datatype Output =
    | Status(to: u16, floor: u16, requestID: u16, status: Status)
    | Notice(to: u16, user: u16, floor: u16, requestID: u16)
    | Error(to: u16)
    | GoodbyeAck(to: u16)
    | Call(callback: Callback)

  /** One connection per user ID at a time. `sessions` are the registered ones, each with the number of
      its connection. */
  datatype System = System(floors: map<u16, Floor>, ticks: nat, handlers: map<u16, Handler>,
                           sessions: map<u16, nat>, connections: nat, out: seq<Output>)

  datatype Action =
    | Connect
    | Hello
    | FloorRequest(floor: u16, grant: bool)
    | FloorRelease(target: u16, requestID: u16)
    | Goodbye
    | Scan(floor: u16)
    | Snapshot(order: seq<u16>)
    | Draw
    | Continue

  const EMPTY: System := System(map[], 0, map[], map[], 0, [])

  function At(s: System, u: u16, h: Handler): System {
    s.(handlers := s.handlers[u := h])
  }

  function Set(s: System, k: u16, f: Floor): System {
    s.(floors := s.floors[k := f])
  }

  function FloorAt(s: System, k: u16): Floor {
    if k in s.floors then s.floors[k] else NewFloor()
  }

  /** A snapshot of the sessions, with the numbers of their connections. */
  function Recipients(sessions: map<u16, nat>, order: seq<u16>): seq<(u16, nat)> {
    if order == [] then []
    else (if order[0] in sessions then [(order[0], sessions[order[0]])] else []) + Recipients(sessions, order[1..])
  }

  /** The notice to the first recipient, if its connection is still there. */
  function NoticeTo(s: System, u: u16, k: u16, r: u16, recipients: seq<(u16, nat)>): Option<Output>
    requires recipients != []
  {
    var (to, connection) := recipients[0];
    if to in s.sessions && s.sessions[to] == connection then Some(Notice(to, u, k, r)) else None
  }

  /** The next atomic operation of the handler of `u`: the call on a floor, if it is one that succeeds. */
  function Change(s: System, u: u16): Option<(u16, Floor)>
    requires u in s.handlers
  {
    match s.handlers[u]
    case Numbered(k, r, _) => OnFloor(k, FloorAt(s, k).Request(u, r, PRIORITY_NORMAL))
    case Sleeping(k, _, grant) => OnFloor(k, if grant then FloorAt(s, k).Grant() else FloorAt(s, k).Deny())
    case Releasing(k, _) => OnFloor(k, FloorAt(s, k).Release(u))
    case Leaving(todo) => if todo == [] then None else OnFloor(todo[0], FloorAt(s, todo[0]).Release(u))
    case _ => None
  }

  function OnFloor(k: u16, f: Option<Floor>): Option<(u16, Floor)> {
    if f.Some? then Some((k, f.value)) else None
  }

  /** The message or callback it is, if it is one. */
  function Says(s: System, u: u16): Option<Output>
    requires u in s.handlers
  {
    match s.handlers[u]
    case Numbered(_, _, _) => if Change(s, u).None? then Some(Error(u)) else None
    case Refused(k, r) => Some(Call(OnDenied(k, u, r)))
    case Taken(k, r, _) => Some(Status(u, k, r, Pending))
    case Decided(k, r, granted) => Some(Status(u, k, r, if granted then Granted else Denied))
    case Announced(k, r, granted) => Some(Call(if granted then OnGranted(k, u, r) else OnDenied(k, u, r)))
    case Releasing(_, _) => if Change(s, u).None? then Some(Error(u)) else None
    case Freed(k, r) => Some(Status(u, k, r, Released))
    case Answered(k, _) => Some(Call(OnReleased(k, u)))
    case Telling(k, r, recipients) => if recipients == [] then None else NoticeTo(s, u, k, r, recipients)
    case Leaving(todo) => if todo == [] then Some(GoodbyeAck(u)) else None
    case LeftTelling(k, r, recipients, _) =>
      if recipients == [] then Some(Call(OnReleased(k, u))) else NoticeTo(s, u, k, r, recipients)
    case _ => None
  }

  /** Where it leaves the handler. */
  function Next(s: System, u: u16): Handler
    requires u in s.handlers
  {
    match s.handlers[u]
    case Found(k, grant) => Numbered(k, ID(s.ticks + 1), grant)
    case Numbered(k, r, grant) => if Change(s, u).None? then Refused(k, r) else Taken(k, r, grant)
    case Refused(_, _) => Idle
    case Taken(k, r, grant) => Sleeping(k, r, grant)
    case Sleeping(k, r, grant) => if Change(s, u).None? then Idle else Decided(k, r, grant)
    case Decided(k, r, granted) => Announced(k, r, granted)
    case Announced(_, _, _) => Idle
    case Releasing(k, r) => if Change(s, u).None? then Idle else Freed(k, r)
    case Freed(k, r) => Answered(k, r)
    case Answered(k, r) => Reported(k, r)
    case Telling(k, r, recipients) => if recipients == [] then Idle else Telling(k, r, recipients[1..])
    case Scanning(unread, owned) => if unread == {} then Leaving(owned) else Scanning(unread, owned)
    case Leaving(todo) =>
      if todo == [] then Closing else if Change(s, u).None? then Leaving(todo[1..]) else LeftOne(todo[0], todo[1..])
    case LeftOne(k, todo) => LeftRead(k, FloorAt(s, k).requestID, todo)
    case LeftTelling(k, r, recipients, todo) =>
      if recipients == [] then Leaving(todo) else LeftTelling(k, r, recipients[1..], todo)
    case Closing => Gone
    case h => h
  }

  /** A request and every notice draw an ID from the counter. */
  predicate Draws(h: Handler) {
    h.Found? || ((h.Telling? || h.LeftTelling?) && h.recipients != [])
  }

  /** The state the operation leaves, its output aside. */
  function Moves(s: System, u: u16): System
    requires u in s.handlers
  {
    var floors := if Change(s, u).Some? then s.floors[Change(s, u).value.0 := Change(s, u).value.1] else s.floors;
    var h := s.handlers[u];
    s.(handlers := s.handlers[u := Next(s, u)], floors := floors, ticks := if Draws(h) then s.ticks + 1 else s.ticks,
       sessions := if h.Closing? then s.sessions - {u} else s.sessions)
  }

  function Advance(s: System, u: u16): System
    requires u in s.handlers
  {
    match Says(s, u)
    case None => Moves(s, u)
    case Some(o) => Moves(s, u).(out := s.out + [o])
  }

  function Connected(s: System, u: u16): System {
    At(s.(connections := s.connections + 1), u, Idle)
  }

  /** A broadcast snapshots the other sessions in some order. */
  function Snapped(s: System, u: u16, order: seq<u16>): System
    requires u in s.handlers
  {
    if multiset(order) != multiset(s.sessions.Keys - {u}) then s
    else
      match s.handlers[u]
      case Reported(k, r) => At(s, u, Telling(k, r, Recipients(s.sessions, order)))
      case LeftRead(k, r, todo) => At(s, u, LeftTelling(k, r, Recipients(s.sessions, order), todo))
      case _ => s
  }

  /** What a handler starts with, or reads: a release looks its floor up and may find any floor, and a
      Goodbye reads the owners one by one. */
  function Begun(s: System, u: u16, a: Action): System
    requires u in s.handlers
  {
    var h := s.handlers[u];
    match a
    case Connect => if h.Gone? then Connected(s, u) else s
    case Hello => if h.Idle? && u !in s.sessions then s.(sessions := s.sessions[u := s.connections]) else s
    case FloorRequest(k, grant) => if h.Idle? then At(Set(s, k, FloorAt(s, k)), u, Found(k, grant)) else s
    case FloorRelease(k, r) => if h.Idle? && k in s.floors then At(s, u, Releasing(k, r)) else s
    case Goodbye => if h.Idle? then At(s, u, Scanning(s.floors.Keys, [])) else s
    case Scan(k) =>
      if h.Scanning? && k in h.unread
      then At(s, u, Scanning(h.unread - {k}, h.owned + (if FloorAt(s, k).owner == u then [k] else [])))
      else s
    case _ => s
  }

  /** Keepalives draw from the counter at any time. Actions that do not apply where the handler stands
      change nothing. */
  function Step(s: System, u: u16, a: Action): System {
    if a.Draw? then s.(ticks := s.ticks + 1)
    else if u !in s.handlers then (if a.Connect? then Connected(s, u) else s)
    else
      match a
      case Snapshot(order) => Snapped(s, u, order)
      case Continue => Advance(s, u)
      case _ => Begun(s, u, a)
  }

  function Run(s: System, moves: seq<(u16, Action)>): System
    decreases moves
  {
    if moves == [] then s else Run(Step(s, moves[0].0, moves[0].1), moves[1..])
  }

  // ----- the invariant ----------------------------------------------------

  /** The status `u` was last answered about `k`, since it last said goodbye. */
  function LastTold(out: seq<Output>, u: u16, k: u16): Option<Status> {
    if out == [] then None
    else
      var o := out[|out| - 1];
      if o.Status? && o.to == u && o.floor == k then Some(o.status)
      else if o.GoodbyeAck? && o.to == u then None
      else LastTold(out[..|out| - 1], u, k)
  }

  predicate Owns(s: System, u: u16, k: u16) {
    k in s.floors && s.floors[k].owner == u
  }

  predicate Holds(s: System, u: u16, k: u16) {
    k in s.floors && s.floors[k].status.Granted? && s.floors[k].owner == u
  }

  predicate PendingFor(s: System, u: u16, k: u16, r: u16) {
    Owns(s, u, k) && s.floors[k].status.Pending? && s.floors[k].requestID == r
  }

  predicate GrantedFor(s: System, u: u16, k: u16, r: u16) {
    Owns(s, u, k) && s.floors[k].status.Granted? && s.floors[k].requestID == r
  }

  /** Handlers between Request and Grant or Deny. */
  predicate Awaits(h: Handler, k: u16, r: u16) {
    (h.Taken? || h.Sleeping?) && h.floor == k && h.requestID == r
  }

  predicate Sane(f: Floor) {
    && (f.status.Released? || f.status.Pending? || f.status.Granted? || f.status.Denied?)
    && (f.owner != 0 <==> f.status.Pending? || f.status.Granted?)
  }

  /** A Pending floor has a handler waiting for it, and every owner a session. */
  predicate FloorOK(s: System, k: u16) {
    k in s.floors ==>
      var f := s.floors[k];
      && Sane(f)
      && (f.owner != 0 ==> f.owner in s.handlers)
      && (f.status.Pending? ==> Awaits(s.handlers[f.owner], k, f.requestID))
  }

  /** What the handler of `u` may rely on about the floor it is at. */
  predicate PlaceOK(s: System, u: u16) {
    u in s.handlers ==>
      var h := s.handlers[u];
      && (h.Found? || h.Numbered? || h.Releasing? ==> h.floor in s.floors)
      && (h.Taken? || h.Sleeping? ==> PendingFor(s, u, h.floor, h.requestID))
      && ((h.Decided? || h.Announced?) && h.granted ==> GrantedFor(s, u, h.floor, h.requestID))
      && (h.Decided? && !h.granted ==> !Owns(s, u, h.floor))
      && (Freeing(h) || h.Reported? || h.Telling? ==> !Owns(s, u, h.floor))
  }

  /** Handlers that have freed their floor and still have something to say about it. */
  predicate Freeing(h: Handler) {
    h.Freed? || h.Answered? || h.LeftOne? || h.LeftRead? || h.LeftTelling?
  }

  /** The floors a Goodbye has not come to yet. */
  predicate PartingOK(s: System, u: u16, k: u16) {
    u in s.handlers && Owns(s, u, k) ==>
      var h := s.handlers[u];
      && (h.Scanning? ==> k in h.unread || k in h.owned)
      && (Departing(h) ==> k in h.todo)
      && !h.Closing? && !h.Gone?
  }

  /** Handlers in the middle of a Goodbye. */
  predicate Departing(h: Handler) {
    h.Leaving? || h.LeftOne? || h.LeftRead? || h.LeftTelling?
  }

  /** Handlers that have given `k` up without having told their client yet. */
  predicate Dropping(h: Handler, k: u16) {
    Departing(h) || (h.Freed? && h.floor == k)
  }

  /** Handlers that have freed `k` without having reported it yet. */
  predicate Unreported(h: Handler, k: u16) {
    Freeing(h) && h.floor == k
  }

  /** What the client of `u` was answered about `k` is true, except in the middle of a change of its own. */
  predicate ToldOK(s: System, u: u16, k: u16) {
    if u !in s.handlers then LastTold(s.out, u, k) == None
    else
      var h := s.handlers[u];
      var told := LastTold(s.out, u, k) == Some(Granted);
      && (Holds(s, u, k) ==> told || (h.Decided? && h.floor == k && h.granted))
      && (told ==> Holds(s, u, k) || Dropping(h, k))
  }

  predicate OpensFor(o: Output, u: u16, k: u16) {
    o.Call? && o.callback.OnGranted? && o.callback.floor == k && o.callback.user == u
  }

  predicate ClosesFor(o: Output, u: u16, k: u16) {
    o.Call? && o.callback.OnReleased? && o.callback.floor == k && o.callback.user == u
  }

  /** The last callback about `u` and `k` reported a grant. */
  predicate Open(out: seq<Output>, u: u16, k: u16) {
    out != []
    && var o := out[|out| - 1];
       OpensFor(o, u, k) || (!ClosesFor(o, u, k) && Open(out[..|out| - 1], u, k))
  }

  /** Grants and releases of `k` reported for `u` alternate, a grant first. */
  predicate Alternates(out: seq<Output>, u: u16, k: u16) {
    out == []
    || var o, before := out[|out| - 1], out[..|out| - 1];
       && Alternates(before, u, k)
       && (OpensFor(o, u, k) ==> !Open(before, u, k))
       && (ClosesFor(o, u, k) ==> Open(before, u, k))
  }

  /** The callbacks about `u` and `k` are paired, and lag behind the floor only while the handler of
      `u` is about to make the next one. */
  predicate CallsOK(s: System, u: u16, k: u16) {
    && Alternates(s.out, u, k)
    && (Open(s.out, u, k) <==>
          && u in s.handlers
          && var h := s.handlers[u];
             || (Holds(s, u, k) && !((h.Decided? || h.Announced?) && h.floor == k && h.granted))
             || Unreported(h, k))
  }

  ghost predicate Inv(s: System) {
    && 0 !in s.handlers
    && (forall k: u16 :: FloorOK(s, k))
    && (forall u: u16 :: PlaceOK(s, u))
    && (forall u: u16, k: u16 :: PartingOK(s, u, k))
    && (forall u: u16, k: u16 :: ToldOK(s, u, k))
    && (forall u: u16, k: u16 :: CallsOK(s, u, k))
  }

  // ----- every step keeps the invariant -----------------------------------

  lemma LastToldSay(out: seq<Output>, o: Output, u: u16, k: u16)
    ensures LastTold(out + [o], u, k)
         == if o.Status? && o.to == u && o.floor == k then Some(o.status)
            else if o.GoodbyeAck? && o.to == u then None
            else LastTold(out, u, k)
  {
    assert (out + [o])[..|out + [o]| - 1] == out;
  }

  lemma CallsSay(out: seq<Output>, o: Output, u: u16, k: u16)
    ensures Open(out + [o], u, k) <==> OpensFor(o, u, k) || (!ClosesFor(o, u, k) && Open(out, u, k))
    ensures Alternates(out + [o], u, k) <==>
              && Alternates(out, u, k)
              && (OpensFor(o, u, k) ==> !Open(out, u, k))
              && (ClosesFor(o, u, k) ==> Open(out, u, k))
  {
    assert (out + [o])[..|out + [o]| - 1] == out;
  }

  /** Answers and callbacks are about the handler's own user; notices go to others. */
  predicate About(o: Output, u: u16) {
    match o
    case Status(to, _, _, _) => to == u
    case Notice(_, _, _, _) => true
    case Error(to) => to == u
    case GoodbyeAck(to) => to == u
    case Call(OnGranted(_, user, _)) => user == u
    case Call(OnReleased(_, user)) => user == u
    case Call(OnDenied(_, user, _)) => user == u
    case Call(OnConnect(_, user)) => user == u
  }

  lemma SaysAboutItself(s: System, u: u16)
    requires u in s.handlers && Says(s, u).Some?
    ensures About(Says(s, u).value, u)
  {
  }

  /** A step answers and reports nothing about other users. */
  lemma StepSays(s: System, u: u16, a: Action, v: u16, k: u16)
    requires v != u
    ensures var out := Step(s, u, a).out;
            && LastTold(out, v, k) == LastTold(s.out, v, k)
            && (Open(out, v, k) <==> Open(s.out, v, k)) && (Alternates(out, v, k) <==> Alternates(s.out, v, k))
  {
    hide Says, LastTold, Open, Alternates;
    if a.Continue? && u in s.handlers && Says(s, u).Some? {
      SaysAboutItself(s, u);
      LastToldSay(s.out, Says(s, u).value, v, k);
      CallsSay(s.out, Says(s, u).value, v, k);
    }
  }

  // What each part of a step keeps; the parts are put together below.

  /** Every other handler is left alone, and every floor that is another's. */
  predicate Framed(s: System, t: System, v: u16, k: u16) {
    && (v in s.handlers <==> v in t.handlers)
    && (v in s.handlers ==> t.handlers[v] == s.handlers[v])
    && (k in s.floors ==> k in t.floors)
    && (k in s.floors && s.floors[k].owner == v ==> t.floors[k] == s.floors[k])
    && (k in t.floors && t.floors[k].owner == v ==> k in s.floors && s.floors[k].owner == v)
  }

  lemma MovesFrame(s: System, u: u16, v: u16, k: u16)
    requires u in s.handlers && FloorOK(s, k) && PlaceOK(s, u) && v != u && v != 0 && u != 0
    ensures Framed(s, Moves(s, u), v, k)
  {
  }

  lemma StepFrame(s: System, u: u16, a: Action, v: u16, k: u16)
    requires FloorOK(s, k) && PlaceOK(s, u) && v != u && v != 0 && u != 0
    ensures Framed(s, Step(s, u, a), v, k)
  {
    hide Moves, Says;
    if a.Continue? && u in s.handlers {
      MovesFrame(s, u, v, k);
    }
  }

  lemma MovesPlace(s: System, u: u16)
    requires u in s.handlers && PlaceOK(s, u) && u != 0
    ensures PlaceOK(Moves(s, u), u)
  {
  }

  lemma BegunPlace(s: System, u: u16, a: Action)
    requires u in s.handlers && PlaceOK(s, u)
    ensures PlaceOK(Begun(s, u, a), u)
  {
  }

  lemma SnapPlace(s: System, u: u16, order: seq<u16>)
    requires u in s.handlers && PlaceOK(s, u)
    ensures PlaceOK(Snapped(s, u, order), u)
  {
  }

  lemma StepPlace(s: System, u: u16, a: Action)
    requires PlaceOK(s, u) && u != 0
    ensures PlaceOK(Step(s, u, a), u)
  {
    hide Moves, Says, Begun, Snapped;
    if u in s.handlers {
      if a.Continue? {
        MovesPlace(s, u);
      } else if a.Snapshot? {
        SnapPlace(s, u, a.order);
      } else {
        BegunPlace(s, u, a);
      }
    }
  }

  lemma MovesParting(s: System, u: u16, k: u16)
    requires u in s.handlers && PartingOK(s, u, k) && u != 0
    ensures PartingOK(Moves(s, u), u, k)
  {
  }

  lemma StepParting(s: System, u: u16, a: Action, k: u16)
    requires PartingOK(s, u, k) && u != 0
    ensures PartingOK(Step(s, u, a), u, k)
  {
    hide Moves, Says;
    if a.Continue? && u in s.handlers {
      MovesParting(s, u, k);
    }
  }

  lemma MovesFloor(s: System, u: u16, k: u16)
    requires u in s.handlers && FloorOK(s, k) && PlaceOK(s, u) && u != 0
    requires k in s.floors && s.floors[k].owner in {0, u}
    ensures FloorOK(Moves(s, u), k)
  {
  }

  lemma StepFloor(s: System, u: u16, a: Action, k: u16)
    requires FloorOK(s, k) && PlaceOK(s, u) && u != 0
    ensures FloorOK(Step(s, u, a), k)
  {
    hide Moves, Says;
    if k in s.floors && s.floors[k].owner !in {0, u} {
      StepFrame(s, u, a, s.floors[k].owner, k);
    } else if a.Continue? && u in s.handlers {
      if k in s.floors {
        MovesFloor(s, u, k);
      } else {
        MovesNoFloor(s, u, k);
      }
    }
  }

  lemma MovesNoFloor(s: System, u: u16, k: u16)
    requires u in s.handlers && PlaceOK(s, u) && k !in s.floors && u != 0
    ensures k !in Moves(s, u).floors || FloorOK(Moves(s, u), k)
  {
  }

  lemma AdvanceTold(s: System, u: u16, k: u16)
    requires u in s.handlers && FloorOK(s, k) && PlaceOK(s, u) && PartingOK(s, u, k) && ToldOK(s, u, k)
    ensures ToldOK(Advance(s, u), u, k)
  {
    hide LastTold;
    if Says(s, u).Some? {
      LastToldSay(s.out, Says(s, u).value, u, k);
    }
  }

  lemma BeginTold(s: System, u: u16, a: Action, k: u16)
    requires u in s.handlers && PartingOK(s, u, k) && ToldOK(s, u, k)
    ensures ToldOK(Begun(s, u, a), u, k)
    ensures a.Snapshot? ==> ToldOK(Snapped(s, u, a.order), u, k)
  {
    hide LastTold;
  }

  lemma StepTold(s: System, u: u16, a: Action, k: u16)
    requires FloorOK(s, k) && PlaceOK(s, u) && PartingOK(s, u, k) && ToldOK(s, u, k)
    ensures ToldOK(Step(s, u, a), u, k)
  {
    hide Advance, LastTold, Snapped, Begun;
    if u in s.handlers {
      if a.Continue? {
        AdvanceTold(s, u, k);
      } else {
        BeginTold(s, u, a, k);
      }
    }
  }

  /** A message, or a silent step, changes no callback. */
  lemma MessageCalls(s: System, u: u16, k: u16)
    requires u in s.handlers && FloorOK(s, k) && PlaceOK(s, u) && CallsOK(s, u, k) && u != 0
    requires Says(s, u).Some? ==> !Says(s, u).value.Call?
    ensures CallsOK(Advance(s, u), u, k)
  {
    hide Open, Alternates;
    if Says(s, u).Some? {
      CallsSay(s.out, Says(s, u).value, u, k);
    }
  }

  lemma CallbackCalls(s: System, u: u16, k: u16)
    requires u in s.handlers && PlaceOK(s, u) && CallsOK(s, u, k) && u != 0
    requires Says(s, u).Some? && Says(s, u).value.Call?
    ensures CallsOK(Advance(s, u), u, k)
  {
    hide Open, Alternates;
    CallsSay(s.out, Says(s, u).value, u, k);
  }

  lemma BegunCalls(s: System, u: u16, a: Action, k: u16)
    requires u in s.handlers && CallsOK(s, u, k)
    ensures CallsOK(Begun(s, u, a), u, k)
  {
    hide Open, Alternates;
    assert Holds(Begun(s, u, a), u, k) <==> Holds(s, u, k);
  }

  lemma SnapCalls(s: System, u: u16, order: seq<u16>, k: u16)
    requires u in s.handlers && CallsOK(s, u, k)
    ensures CallsOK(Snapped(s, u, order), u, k)
  {
    hide Open, Alternates;
  }

  lemma StepCalls(s: System, u: u16, a: Action, k: u16)
    requires FloorOK(s, k) && PlaceOK(s, u) && CallsOK(s, u, k) && u != 0
    ensures CallsOK(Step(s, u, a), u, k)
  {
    hide Advance, Open, Alternates, Says, Begun, Snapped;
    if u in s.handlers {
      if a.Snapshot? {
        SnapCalls(s, u, a.order, k);
      } else if !a.Continue? {
        BegunCalls(s, u, a, k);
      } else if Says(s, u).Some? && Says(s, u).value.Call? {
        CallbackCalls(s, u, k);
      } else {
        MessageCalls(s, u, k);
      }
    }
  }

  lemma OthersPlace(s: System, u: u16, a: Action, v: u16)
    requires Inv(s) && v != u && u != 0
    ensures PlaceOK(Step(s, u, a), v)
  {
    if v == 0 {
      NoUserZero(s, u, a);
    } else {
      hide Step;
      assert PlaceOK(s, u) && PlaceOK(s, v) && FloorOK(s, 0);
      StepFrame(s, u, a, v, 0);
      if v in s.handlers && Placed(s.handlers[v]) {
        assert FloorOK(s, s.handlers[v].floor);
        StepFrame(s, u, a, v, s.handlers[v].floor);
      }
    }
  }

  predicate Placed(h: Handler) {
    h.Found? || h.Numbered? || h.Releasing? || h.Taken? || h.Sleeping? || h.Decided? || h.Announced? || Freeing(h)
    || h.Reported? || h.Telling?
  }

  lemma OthersOK(s: System, u: u16, a: Action, v: u16, k: u16)
    requires Inv(s) && v != u && u != 0
    ensures PartingOK(Step(s, u, a), v, k) && ToldOK(Step(s, u, a), v, k) && CallsOK(Step(s, u, a), v, k)
  {
    StepSays(s, u, a, v, k);
    assert ToldOK(s, v, k) && CallsOK(s, v, k) && PartingOK(s, v, k);
    if v == 0 {
      NoUserZero(s, u, a);
    } else {
      hide Step;
      assert FloorOK(s, k) && PlaceOK(s, u);
      StepFrame(s, u, a, v, k);
    }
  }

  lemma StepKeepsInv(s: System, u: u16, a: Action)
    requires Inv(s) && u != 0
    ensures Inv(Step(s, u, a))
  {
    hide Step, PlaceOK, PartingOK, ToldOK, CallsOK, FloorOK;
    forall k: u16 ensures FloorOK(Step(s, u, a), k) {
      assert FloorOK(s, k) && PlaceOK(s, u);
      StepFloor(s, u, a, k);
    }
    forall v: u16 ensures PlaceOK(Step(s, u, a), v) {
      assert PlaceOK(s, v);
      if v == u {
        StepPlace(s, u, a);
      } else {
        OthersPlace(s, u, a, v);
      }
    }
    forall v: u16, k: u16
      ensures PartingOK(Step(s, u, a), v, k) && ToldOK(Step(s, u, a), v, k) && CallsOK(Step(s, u, a), v, k)
    {
      assert FloorOK(s, k) && PlaceOK(s, v) && PartingOK(s, v, k) && ToldOK(s, v, k) && CallsOK(s, v, k);
      if v == u {
        StepParting(s, u, a, k);
        StepTold(s, u, a, k);
        StepCalls(s, u, a, k);
      } else {
        OthersOK(s, u, a, v, k);
      }
    }
    NoUserZero(s, u, a);
  }

  lemma MovesOwn(s: System, u: u16)
    requires u in s.handlers
    ensures Moves(s, u).handlers.Keys == s.handlers.Keys
  {
  }

  lemma NoUserZero(s: System, u: u16, a: Action)
    requires 0 !in s.handlers && u != 0
    ensures 0 !in Step(s, u, a).handlers
  {
    hide Moves, Says;
    if u in s.handlers {
      MovesOwn(s, u);
    }
  }
}
