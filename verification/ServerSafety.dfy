/** What the UDP floor control server guarantees on every datagram and over every run. */
module ServerSafety {
  import opened Wrappers
  import opened Octets
  import opened Tlv
  import opened Messages
  import opened Grouped
  import opened FloorState
  import opened Refusals
  import opened FloorServer

  // ----- ownership --------------------------------------------------------

  predicate InUse(f: Floor) {
    f.status.Pending? || f.status.Granted?
  }

  lemma {:induction false} GoodbyeKeeps(s: State, user: u16, freed: seq<(u16, seq<Addr>)>, k: u16)
    requires user != 0 && k in s.floors && s.floors[k].owner != user
    ensures k in GoodbyeState(s, user, freed).floors
    ensures GoodbyeState(s, user, freed).floors[k] == s.floors[k]
    decreases freed
  {
    if freed != [] {
      if FloorOrNew(s, freed[0].0).Release(user).None? {
        GoodbyeKeeps(s, user, freed[1..], k);
      } else {
        GoodbyeKeeps(FreedState(s, freed[0].0, user, |freed[0].1|), user, freed[1..], k);
      }
    }
  }

  /** No datagram of a user other than 0 changes a floor Pending or Granted for another user,
      whatever the lookups find and in whatever order the maps are walked. */
  lemma OthersUntouched(s: State, addr: Addr, m: Msg, grant: bool, ch: Choice, k: u16)
    requires m.userID != 0
    requires k in s.floors && InUse(s.floors[k]) && s.floors[k].owner != m.userID
    ensures k in StateAfter(s, addr, m, grant, ch).floors
    ensures StateAfter(s, addr, m, grant, ch).floors[k] == s.floors[k]
  {
    if m.primitive == GOODBYE {
      GoodbyeKeeps(Touched(s, addr, m), m.userID, ch.freed, k);
    }
  }

  /** A FloorRelease either leaves every floor alone or frees exactly one, which its sender owned. */
  lemma ReleaseFreesAtMostOne(s: State, addr: Addr, m: Msg, grant: bool, ch: Choice)
    requires m.userID != 0 && m.primitive == FLOOR_RELEASE
    ensures var after := StateAfter(s, addr, m, grant, ch).floors;
            || after == s.floors
            || exists k :: k in s.floors && s.floors[k].owner == m.userID && after == s.floors[k := NewFloor()]
  {
    var t := Touched(s, addr, m);
    if Freeable(t, m, ch).Success? {
      var k := Freeable(t, m, ch).value;
      assert k in s.floors && s.floors[k].owner == m.userID;
    }
  }

  /** A release naming a request ID the server does not know still frees one of the sender's floors
      whenever one is not Released, and is refused as unknown exactly when there is none. */
  lemma StaleRequestIDFallback(s: State, addr: Addr, m: Msg, grant: bool, ch: Choice)
    requires m.userID != 0 && m.primitive == FLOOR_RELEASE && Legal(s, addr, m, ch)
    requires FloorIDOf(m).None? && FloorRequestIDOf(m).Some?
    requires forall k <- s.floors :: s.floors[k].requestID != FloorRequestIDOf(m).value
    ensures if exists k :: k in s.floors && !s.floors[k].status.Released? && s.floors[k].owner == m.userID
            then exists k :: k in s.floors && s.floors[k].owner == m.userID
                             && StateAfter(s, addr, m, grant, ch).floors == s.floors[k := NewFloor()]
            else StateAfter(s, addr, m, grant, ch).floors == s.floors
                 && Reply(s, addr, m, grant, ch) == Some(Refused(m, NoSuchRequest(FloorRequestIDOf(m).value)))
  {
    var t := Touched(s, addr, m);
    assert t.floors == s.floors && ch.found == None;
    if ch.owned.Some? {
      assert StateAfter(s, addr, m, grant, ch).floors == s.floors[ch.owned.value := NewFloor()];
    }
  }

  function Freed(floors: map<u16, Floor>, ks: seq<u16>): map<u16, Floor> {
    map k | k in floors :: if k in ks then NewFloor() else floors[k]
  }

  lemma {:induction false} GoodbyeFrees(s: State, user: u16, freed: seq<(u16, seq<Addr>)>)
    requires forall i, j :: 0 <= i < j < |freed| ==> freed[i].0 != freed[j].0
    requires forall i :: 0 <= i < |freed| ==> freed[i].0 in s.floors && s.floors[freed[i].0].owner == user
    ensures GoodbyeState(s, user, freed).floors == Freed(s.floors, FloorsOf(freed))
    decreases freed
  {
    if freed != [] {
      GoodbyeFrees(FreedState(s, freed[0].0, user, |freed[0].1|), user, freed[1..]);
    }
  }

  /** A Goodbye frees exactly the floors its sender owns, in whatever order they are found. */
  lemma GoodbyeFreesAll(s: State, addr: Addr, m: Msg, grant: bool, ch: Choice)
    requires m.primitive == GOODBYE && Legal(s, addr, m, ch)
    ensures StateAfter(s, addr, m, grant, ch).floors
         == map k | k in s.floors :: if s.floors[k].owner == m.userID then NewFloor() else s.floors[k]
  {
    var t := Touched(s, addr, m);
    var ks := FloorsOf(ch.freed);
    forall i | 0 <= i < |ch.freed| ensures ch.freed[i].0 in Owned(t, m.userID) {
      assert ks[i] in ks;
    }
    forall i, j | 0 <= i < j < |ch.freed| ensures ch.freed[i].0 != ch.freed[j].0 {
      assert ks[i] != ks[j];
    }
    GoodbyeFrees(t, m.userID, ch.freed);
    assert forall k :: k in ks <==> k in Owned(t, m.userID);
  }

  // ----- runs -------------------------------------------------------------

  datatype Input = Datagram(addr: Addr, msg: Msg, grant: bool, choice: Choice) | CreateFloor(floor: u16)

  const START: State := State(map[], map[], 0, [])

  function Step(s: State, input: Input): State {
    match input
    case Datagram(addr, msg, grant, choice) => StateAfter(s, addr, msg, grant, choice)
    case CreateFloor(floor) => s.(floors := s.floors[floor := FloorOrNew(s, floor)])
  }

  function Run(s: State, inputs: seq<Input>): State
    decreases inputs
  {
    if inputs == [] then s else Run(Step(s, inputs[0]), inputs[1..])
  }

  ghost predicate NonzeroUsers(inputs: seq<Input>) {
    forall i :: 0 <= i < |inputs| && inputs[i].Datagram? ==> inputs[i].msg.userID != 0
  }

  /** Who holds floor `k` according to the callbacks so far. */
  function Holder(callbacks: seq<Callback>, k: u16): Option<u16> {
    if callbacks == [] then None
    else
      var before, last := callbacks[..|callbacks| - 1], callbacks[|callbacks| - 1];
      if last.OnGranted? && last.floor == k then Some(last.user)
      else if last.OnReleased? && last.floor == k then None
      else Holder(before, k)
  }

  /** Grants of `k` only while nobody holds it, releases only by its holder. */
  predicate Bracketed(callbacks: seq<Callback>, k: u16) {
    callbacks == []
    || var before, last := callbacks[..|callbacks| - 1], callbacks[|callbacks| - 1];
       && Bracketed(before, k)
       && (last.OnGranted? && last.floor == k ==> Holder(before, k) == None)
       && (last.OnReleased? && last.floor == k ==> Holder(before, k) == Some(last.user))
  }

  predicate Settled(f: Floor) {
    && (f.status.Released? || f.status.Granted? || f.status.Denied?)
    && (f.owner != 0 <==> f.status.Granted?)
  }

  function Granted(s: State, k: u16): Option<u16> {
    if k in s.floors && s.floors[k].status.Granted? then Some(s.floors[k].owner) else None
  }

  ghost predicate Safe(s: State) {
    && (forall k <- s.floors :: Settled(s.floors[k]))
    && (forall k: u16 :: Bracketed(s.callbacks, k) && Holder(s.callbacks, k) == Granted(s, k))
  }

  lemma LogKeepsSafe(s: State, t: State, c: Callback)
    requires Safe(s) && t.callbacks == s.callbacks + [c]
    requires forall k <- t.floors :: Settled(t.floors[k])
    requires forall k: u16 :: Granted(t, k) == (if c.OnGranted? && c.floor == k then Some(c.user)
                                               else if c.OnReleased? && c.floor == k then None
                                               else Granted(s, k))
    requires c.OnGranted? ==> Granted(s, c.floor) == None
    requires c.OnReleased? ==> Granted(s, c.floor) == Some(c.user)
    ensures Safe(t)
  {
    assert t.callbacks[..|t.callbacks| - 1] == s.callbacks;
  }

  lemma RequestKeepsSafe(s: State, addr: Addr, m: Msg, grant: bool)
    requires Safe(s) && m.userID != 0
    ensures Safe(RequestState(s, addr, m, grant))
  {
    var t := RequestState(s, addr, m, grant);
    if FloorIDOf(m).Some? {
      LogKeepsSafe(s, t, t.callbacks[|t.callbacks| - 1]);
    }
  }

  lemma FreedKeepsSafe(s: State, floor: u16, user: u16, notices: nat)
    requires Safe(s) && user != 0 && FloorOrNew(s, floor).Release(user).Some?
    ensures Safe(FreedState(s, floor, user, notices))
  {
    LogKeepsSafe(s, FreedState(s, floor, user, notices), OnReleased(floor, user));
  }

  lemma {:induction false} GoodbyeKeepsSafe(s: State, user: u16, freed: seq<(u16, seq<Addr>)>)
    requires Safe(s) && user != 0
    ensures Safe(GoodbyeState(s, user, freed))
    decreases freed
  {
    if freed != [] {
      if FloorOrNew(s, freed[0].0).Release(user).None? {
        GoodbyeKeepsSafe(s, user, freed[1..]);
      } else {
        FreedKeepsSafe(s, freed[0].0, user, |freed[0].1|);
        GoodbyeKeepsSafe(FreedState(s, freed[0].0, user, |freed[0].1|), user, freed[1..]);
      }
    }
  }

  lemma HelloKeepsSafe(s: State, addr: Addr, m: Msg)
    requires Safe(s)
    ensures Safe(HelloState(s, addr, m))
  {
    if addr !in s.sessions {
      LogKeepsSafe(s, HelloState(s, addr, m), OnConnect(addr, m.userID));
    }
  }

  lemma StepKeepsSafe(s: State, input: Input)
    requires Safe(s) && (input.Datagram? ==> input.msg.userID != 0)
    ensures Safe(Step(s, input))
  {
    match input
    case CreateFloor(_) =>
    case Datagram(addr, m, grant, ch) =>
      var t := Touched(s, addr, m);
      if m.primitive == HELLO {
        HelloKeepsSafe(t, addr, m);
      } else if m.primitive == FLOOR_REQUEST {
        RequestKeepsSafe(t, addr, m, grant);
      } else if m.primitive == FLOOR_RELEASE {
        if Freeable(t, m, ch).Success? {
          FreedKeepsSafe(t, Freeable(t, m, ch).value, m.userID, |ch.order|);
        }
      } else if m.primitive == GOODBYE {
        GoodbyeKeepsSafe(t, m.userID, ch.freed);
      }
  }

  /** Over every run of datagrams with nonzero user IDs, whatever the decisions and choices: grants
      and releases of each floor alternate and are properly owned, a floor is Granted to a user
      exactly when its last callback says so, and no floor is Pending between datagrams. */
  lemma {:induction false} TraceSafety(s: State, inputs: seq<Input>)
    requires Safe(s) && NonzeroUsers(inputs)
    ensures Safe(Run(s, inputs))
    decreases inputs
  {
    hide Step, Safe;
    if inputs != [] {
      StepKeepsSafe(s, inputs[0]);
      TraceSafety(Step(s, inputs[0]), inputs[1..]);
    }
  }

  lemma TraceSafetyFromStart(inputs: seq<Input>, k: u16)
    requires NonzeroUsers(inputs)
    ensures var s := Run(START, inputs);
            && Bracketed(s.callbacks, k)
            && Holder(s.callbacks, k) == Granted(s, k)
            && (k in s.floors ==> !s.floors[k].status.Pending?)
  {
    TraceSafety(START, inputs);
  }

  lemma DeniedStep(s: State, input: Input, k: u16)
    requires (input.Datagram? ==> input.msg.userID != 0) && k in s.floors && s.floors[k].status.Denied?
               && s.floors[k].owner == 0
    ensures k in Step(s, input).floors && Step(s, input).floors[k] == s.floors[k]
  {
    if input.Datagram? {
      var t, m := Touched(s, input.addr, input.msg), input.msg;
      if m.primitive == FLOOR_RELEASE {
        ReleaseFreesAtMostOne(s, input.addr, m, input.grant, input.choice);
      } else if m.primitive == GOODBYE {
        GoodbyeKeeps(t, m.userID, input.choice.freed, k);
      }
    }
  }

  /** Once Denied, a floor refuses every later datagram: only the server-side Revoke, or user 0,
      could free it. */
  lemma {:induction false} DeniedForever(s: State, inputs: seq<Input>, k: u16)
    requires NonzeroUsers(inputs) && k in s.floors && s.floors[k].status.Denied? && s.floors[k].owner == 0
    ensures k in Run(s, inputs).floors && Run(s, inputs).floors[k] == s.floors[k]
    decreases inputs
  {
    hide Step;
    if inputs != [] {
      DeniedStep(s, inputs[0], k);
      DeniedForever(Step(s, inputs[0]), inputs[1..], k);
    }
  }

  // ----- the same, seen as a sequence of events ---------------------------

  /** The grants and releases of floor `k`, in order. */
  function Events(callbacks: seq<Callback>, k: u16): seq<Callback> {
    if callbacks == [] then []
    else
      var before, last := callbacks[..|callbacks| - 1], callbacks[|callbacks| - 1];
      Events(before, k) + (if (last.OnGranted? || last.OnReleased?) && last.floor == k then [last] else [])
  }

  /** Granted(u), Released(u) pairs with at most one Granted left over. */
  predicate Paired(events: seq<Callback>) {
    if events == [] then true
    else if |events| == 1 then events[0].OnGranted?
    else events[0].OnGranted? && events[1].OnReleased? && events[1].user == events[0].user && Paired(events[2..])
  }

  predicate EndsGranted(events: seq<Callback>) {
    events != [] && events[|events| - 1].OnGranted?
  }

  lemma {:induction false} PairedAppend(events: seq<Callback>, e: Callback)
    requires Paired(events) && (e.OnGranted? || e.OnReleased?)
    ensures EndsGranted(events) ==> (Paired(events + [e]) <==> e.OnReleased? && e.user == events[|events| - 1].user)
    ensures !EndsGranted(events) ==> (Paired(events + [e]) <==> e.OnGranted?)
    decreases events
  {
    if |events| >= 2 {
      PairedAppend(events[2..], e);
      assert (events + [e])[2..] == events[2..] + [e];
    }
  }

  lemma {:induction false} PairedPrefix(events: seq<Callback>, e: Callback)
    requires Paired(events + [e])
    ensures Paired(events)
    decreases events
  {
    if |events| >= 2 {
      assert (events + [e])[2..] == events[2..] + [e];
      PairedPrefix(events[2..], e);
    }
  }

  /** Being bracketed is the same as being such a sequence of pairs. */
  lemma {:induction false} BracketedIsPaired(callbacks: seq<Callback>, k: u16)
    ensures Bracketed(callbacks, k) <==> Paired(Events(callbacks, k))
    ensures Bracketed(callbacks, k) ==>
              var events := Events(callbacks, k);
              Holder(callbacks, k) == if EndsGranted(events) then Some(events[|events| - 1].user) else None
  {
    if callbacks != [] {
      var before, last := callbacks[..|callbacks| - 1], callbacks[|callbacks| - 1];
      BracketedIsPaired(before, k);
      if (last.OnGranted? || last.OnReleased?) && last.floor == k {
        if Paired(Events(before, k)) {
          PairedAppend(Events(before, k), last);
        } else if Paired(Events(before, k) + [last]) {
          PairedPrefix(Events(before, k), last);
        }
      } else {
        assert Events(before, k) + [] == Events(before, k);
      }
    }
  }
}
