/** What the TCP floor control server guarantees in every interleaving of its connection handlers. */
module TcpRuns {
  import opened Wrappers
  import opened Octets
  import opened FloorState
  import opened FloorServer
  import opened TcpServer
  import ServerSafety

  predicate Named(moves: seq<(u16, Action)>) {
    forall i :: 0 <= i < |moves| ==> moves[i].0 != 0
  }

  lemma {:induction false} RunKeepsInv(s: System, moves: seq<(u16, Action)>)
    requires Inv(s) && Named(moves)
    ensures Inv(Run(s, moves))
    decreases moves
  {
    hide Step, Inv;
    if moves != [] {
      StepKeepsInv(s, moves[0].0, moves[0].1);
      RunKeepsInv(Step(s, moves[0].0, moves[0].1), moves[1..]);
    }
  }

  lemma Reachable(moves: seq<(u16, Action)>)
    requires Named(moves)
    ensures Inv(Run(EMPTY, moves))
  {
    RunKeepsInv(EMPTY, moves);
  }

  /** In every interleaving, a handler that wakes up between Request and Grant or Deny finds its floor
      still Pending for its user and request, so the decision succeeds; and a Pending floor always
      has such a handler. */
  lemma DecisionSucceeds(moves: seq<(u16, Action)>, u: u16, k: u16)
    requires Named(moves)
    ensures var s := Run(EMPTY, moves);
            && (u in s.handlers && s.handlers[u].Sleeping? ==>
                  var h := s.handlers[u];
                  && PendingFor(s, u, h.floor, h.requestID)
                  && Step(s, u, Continue).handlers[u] == Decided(h.floor, h.requestID, h.grant))
            && (k in s.floors && s.floors[k].status.Pending? ==>
                  s.floors[k].owner in s.handlers && Awaits(s.handlers[s.floors[k].owner], k, s.floors[k].requestID))
  {
    Reachable(moves);
    var s := Run(EMPTY, moves);
    assert FloorOK(s, k) && PlaceOK(s, u);
  }

  /** Every Granted status leaves while the floor is Granted to that user with that request. */
  lemma GrantedIsTrue(moves: seq<(u16, Action)>, v: u16, a: Action, u: u16, k: u16, r: u16)
    requires Named(moves) && v != 0
    requires var s := Run(EMPTY, moves); Step(s, v, a).out == s.out + [Status(u, k, r, Granted)]
    ensures var s := Run(EMPTY, moves); GrantedFor(s, u, k, r) && GrantedFor(Step(s, v, a), u, k, r)
  {
    Reachable(moves);
    var s := Run(EMPTY, moves);
    assert (s.out + [Status(u, k, r, Granted)])[|s.out|] == Status(u, k, r, Granted);
    assert PlaceOK(s, v);
  }

  // ----- what clients hear ------------------------------------------------

  /** The status `u` last heard about `k`, in an answer or in a notice, since it last said goodbye. */
  function Heard(out: seq<Output>, u: u16, k: u16): Option<Status> {
    if out == [] then None
    else
      var o := out[|out| - 1];
      if o.Status? && o.to == u && o.floor == k then Some(o.status)
      else if o.Notice? && o.to == u && o.floor == k then Some(Released)
      else if o.GoodbyeAck? && o.to == u then None
      else Heard(out[..|out| - 1], u, k)
  }

  /** A notice about `k` has reached `u` since it was last answered about `k`. */
  predicate Overtaken(out: seq<Output>, u: u16, k: u16) {
    out != []
    && var o := out[|out| - 1];
       || (o.Notice? && o.to == u && o.floor == k)
       || (!(o.Status? && o.to == u && o.floor == k) && !(o.GoodbyeAck? && o.to == u)
           && Overtaken(out[..|out| - 1], u, k))
  }

  lemma {:induction false} HeardIs(out: seq<Output>, u: u16, k: u16)
    ensures Heard(out, u, k) == if Overtaken(out, u, k) then Some(Released) else LastTold(out, u, k)
  {
    if out != [] {
      HeardIs(out[..|out| - 1], u, k);
    }
  }

  /** Handlers not in the middle of granting `k` or giving it up. */
  predicate Settled(h: Handler, k: u16) {
    !(h.Decided? && h.floor == k && h.granted) && !Dropping(h, k)
  }

  /** Outside its own requests, releases and goodbyes, a client that last heard Granted holds the floor.
      One that holds it has heard otherwise exactly when a notice of an earlier release came after its
      Granted. */
  lemma ClientsAreToldTheTruth(moves: seq<(u16, Action)>, u: u16, k: u16)
    requires Named(moves)
    ensures var s := Run(EMPTY, moves);
            u in s.handlers && Settled(s.handlers[u], k) ==>
              && (Heard(s.out, u, k) == Some(Granted) ==> Holds(s, u, k))
              && (Holds(s, u, k) && Heard(s.out, u, k) != Some(Granted)
                  <==> LastTold(s.out, u, k) == Some(Granted) && Overtaken(s.out, u, k))
  {
    hide Heard, Overtaken, LastTold;
    Reachable(moves);
    var s := Run(EMPTY, moves);
    assert ToldOK(s, u, k);
    HeardIs(s.out, u, k);
  }

  /** Two clients that last heard Granted for the same floor: one of them is giving it up. */
  lemma MutualExclusion(moves: seq<(u16, Action)>, u: u16, v: u16, k: u16)
    requires Named(moves) && u != v
    ensures var s := Run(EMPTY, moves);
            Heard(s.out, u, k) == Some(Granted) && Heard(s.out, v, k) == Some(Granted) ==>
              && u in s.handlers && v in s.handlers
              && (Dropping(s.handlers[u], k) || Dropping(s.handlers[v], k))
  {
    hide Heard, Overtaken, LastTold;
    Reachable(moves);
    var s := Run(EMPTY, moves);
    assert ToldOK(s, u, k) && ToldOK(s, v, k);
    HeardIs(s.out, u, k);
    HeardIs(s.out, v, k);
  }

  /** After its Goodbye a user owns nothing, although the owners were read one floor at a time. */
  lemma GoodbyeLeavesNothing(moves: seq<(u16, Action)>, u: u16, k: u16)
    requires Named(moves)
    ensures var s := Run(EMPTY, moves);
            u in s.handlers && s.handlers[u].Gone? ==> !Owns(s, u, k)
  {
    Reachable(moves);
    assert PartingOK(Run(EMPTY, moves), u, k);
  }

  lemma CallsReachable(moves: seq<(u16, Action)>, u: u16, k: u16)
    requires Named(moves)
    ensures CallsOK(Run(EMPTY, moves), u, k)
  {
    Reachable(moves);
  }

  /** The callbacks about one user and one floor are paired, and up to date when its handler is idle. */
  lemma CallbacksOfOneUser(moves: seq<(u16, Action)>, u: u16, k: u16)
    requires Named(moves)
    ensures var s := Run(EMPTY, moves);
            && Alternates(s.out, u, k)
            && (u in s.handlers && s.handlers[u].Idle? ==> (Open(s.out, u, k) <==> Holds(s, u, k)))
  {
    CallsReachable(moves, u, k);
  }

  // ----- callbacks across users -------------------------------------------

  lemma {:induction false} RunAppend(s: System, a: seq<(u16, Action)>, b: seq<(u16, Action)>)
    ensures Run(s, a + b) == Run(Run(s, a), b)
    decreases a
  {
    hide Step;
    if a == [] {
      assert a + b == b;
    } else {
      assert (a + b)[1..] == a[1..] + b;
      RunAppend(Step(s, a[0].0, a[0].1), a[1..], b);
    }
  }

  lemma RunSnoc(s: System, moves: seq<(u16, Action)>)
    requires moves != []
    ensures var before, last := moves[..|moves| - 1], moves[|moves| - 1];
            Run(s, moves) == Step(Run(s, before), last.0, last.1)
  {
    hide Step;
    var before, last := moves[..|moves| - 1], moves[|moves| - 1];
    var one: seq<(u16, Action)> := [last];
    assert before + one == moves && one[1..] == [];
    RunAppend(s, before, one);
  }

  /** The callbacks of an output, in order. */
  function Calls(out: seq<Output>): seq<Callback> {
    if out == [] then []
    else Calls(out[..|out| - 1]) + (if out[|out| - 1].Call? then [out[|out| - 1].callback] else [])
  }

  lemma CallsSnoc(out: seq<Output>, o: Output)
    ensures Calls(out + [o]) == if o.Call? then Calls(out) + [o.callback] else Calls(out)
  {
    assert (out + [o])[..|out + [o]| - 1] == out;
    assert Calls(out) + [] == Calls(out);
  }

  lemma BracketedSnoc(calls: seq<Callback>, c: Callback, k: u16)
    ensures ServerSafety.Bracketed(calls + [c], k) <==>
              && ServerSafety.Bracketed(calls, k)
              && (c.OnGranted? && c.floor == k ==> ServerSafety.Holder(calls, k) == None)
              && (c.OnReleased? && c.floor == k ==> ServerSafety.Holder(calls, k) == Some(c.user))
    ensures ServerSafety.Holder(calls + [c], k)
         == if c.OnGranted? && c.floor == k then Some(c.user)
            else if c.OnReleased? && c.floor == k then None
            else ServerSafety.Holder(calls, k)
  {
    assert (calls + [c])[..|calls + [c]| - 1] == calls;
  }

  /** As long as the callbacks of a floor are bracketed, its holder is the user whose grant is open. */
  lemma {:induction false} HolderIsOpen(out: seq<Output>, k: u16, u: u16)
    requires ServerSafety.Bracketed(Calls(out), k)
    ensures Open(out, u, k) <==> ServerSafety.Holder(Calls(out), k) == Some(u)
  {
    hide ServerSafety.Bracketed, ServerSafety.Holder, Open, Calls;
    if out == [] {
      NothingOpen(k, u);
    } else {
      var before, o := out[..|out| - 1], out[|out| - 1];
      assert out == before + [o];
      CallsSnoc(before, o);
      TcpServer.CallsSay(before, o, u, k);
      if o.Call? {
        BracketedSnoc(Calls(before), o.callback, k);
      }
      HolderIsOpen(before, k, u);
    }
  }

  lemma NothingOpen(k: u16, u: u16)
    ensures !Open([], u, k) && ServerSafety.Holder(Calls([]), k) == None && ServerSafety.Bracketed(Calls([]), k)
  {
  }

  /** When a grant of `k` is about to be reported, another user's grant is still open exactly when its
      handler has freed `k` without having reported it. */
  lemma OpenAtGrant(moves: seq<(u16, Action)>, v: u16, u: u16, k: u16, r: u16)
    requires Named(moves) && u != v
    requires var s := Run(EMPTY, moves); v in s.handlers && s.handlers[v] == Announced(k, r, true)
    ensures var s := Run(EMPTY, moves); Open(s.out, u, k) <==> u in s.handlers && Unreported(s.handlers[u], k)
  {
    hide Open;
    Reachable(moves);
    var s := Run(EMPTY, moves);
    assert PlaceOK(s, v) && CallsOK(s, u, k);
  }

  /** The step reports a grant of `k` while another handler is between freeing `k` and reporting it. */
  predicate Overlaps(s: System, v: u16, a: Action, k: u16) {
    && a.Continue? && v in s.handlers && s.handlers[v].Announced? && s.handlers[v].floor == k && s.handlers[v].granted
    && exists u :: u in s.handlers && u != v && Unreported(s.handlers[u], k)
  }

  lemma StepOut(s: System, v: u16, a: Action)
    ensures Step(s, v, a).out
         == if a.Continue? && v in s.handlers && Says(s, v).Some? then s.out + [Says(s, v).value] else s.out
  {
    hide Says, Change, Next;
  }

  lemma OverlapSays(s: System, v: u16, a: Action, k: u16)
    ensures Overlaps(s, v, a, k) ==>
              a.Continue? && v in s.handlers && Says(s, v).Some? && OpensFor(Says(s, v).value, v, k)
                && Overlaps(s, v, Continue, k)
    ensures a.Continue? ==> Overlaps(s, v, a, k) == Overlaps(s, v, Continue, k)
  {
  }

  /** Whether a step keeps the callbacks of `k` bracketed. */
  lemma StepBracketed(moves: seq<(u16, Action)>, v: u16, a: Action, k: u16)
    requires Named(moves) && v != 0 && ServerSafety.Bracketed(Calls(Run(EMPTY, moves).out), k)
    ensures var s := Run(EMPTY, moves);
            ServerSafety.Bracketed(Calls(Step(s, v, a).out), k) <==> !Overlaps(s, v, a, k)
  {
    hide ServerSafety.Bracketed, ServerSafety.Holder, Open, Calls, Step, Overlaps;
    Reachable(moves);
    var s := Run(EMPTY, moves);
    StepOut(s, v, a);
    OverlapSays(s, v, a, k);
    if a.Continue? && v in s.handlers && Says(s, v).Some? {
      var o := Says(s, v).value;
      CallsSnoc(s.out, o);
      if o.Call? {
        BracketedSnoc(Calls(s.out), o.callback, k);
        GrantBracketed(moves, v, k);
        assert CallsOK(s, v, k);
        HolderIsOpen(s.out, k, v);
      }
    }
  }

  /** Nobody holds `k` by the callbacks exactly when no handler is between freeing and reporting it. */
  lemma GrantBracketed(moves: seq<(u16, Action)>, v: u16, k: u16)
    requires Named(moves) && ServerSafety.Bracketed(Calls(Run(EMPTY, moves).out), k)
    ensures var s := Run(EMPTY, moves);
            v in s.handlers && s.handlers[v].Announced? && s.handlers[v].floor == k && s.handlers[v].granted ==>
              (ServerSafety.Holder(Calls(s.out), k) == None <==> !Overlaps(s, v, Continue, k))
  {
    hide ServerSafety.Bracketed, ServerSafety.Holder, Open, Calls;
    var s := Run(EMPTY, moves);
    if v in s.handlers && s.handlers[v].Announced? && s.handlers[v].floor == k && s.handlers[v].granted {
      Reachable(moves);
      assert CallsOK(s, v, k);
      HolderIsOpen(s.out, k, v);
      forall u: u16 | u != v
        ensures ServerSafety.Holder(Calls(s.out), k) == Some(u) <==> u in s.handlers && Unreported(s.handlers[u], k)
      {
        OpenAtGrant(moves, v, u, k, s.handlers[v].requestID);
        HolderIsOpen(s.out, k, u);
      }
    }
  }

  predicate Overlapping(moves: seq<(u16, Action)>, n: nat, k: u16)
    requires n < |moves|
  {
    Overlaps(Run(EMPTY, moves[..n]), moves[n].0, moves[n].1, k)
  }

  /** Over every run, the callbacks of a floor are bracketed, as over UDP, exactly when no grant is ever
      reported while another handler is between freeing the floor and reporting that. */
  lemma {:induction false} CallbacksBracketedIff(moves: seq<(u16, Action)>, k: u16)
    requires Named(moves)
    ensures ServerSafety.Bracketed(Calls(Run(EMPTY, moves).out), k)
       <==> forall n :: 0 <= n < |moves| ==> !Overlapping(moves, n, k)
    decreases |moves|
  {
    hide ServerSafety.Bracketed, Calls, Run, Step, Overlaps;
    if moves == [] {
      NoMoves(k);
    } else {
      var before, last := moves[..|moves| - 1], moves[|moves| - 1];
      CallbacksBracketedIff(before, k);
      RunSnoc(EMPTY, moves);
      forall n | 0 <= n < |before| ensures Overlapping(moves, n, k) <==> Overlapping(before, n, k) {
        assert moves[..n] == before[..n];
      }
      if ServerSafety.Bracketed(Calls(Run(EMPTY, before).out), k) {
        StepBracketed(before, last.0, last.1, k);
        assert Overlapping(moves, |before|, k) <==> Overlaps(Run(EMPTY, before), last.0, last.1, k);
      } else {
        StaysUnbracketed(Run(EMPTY, before), last.0, last.1, k);
      }
    }
  }

  lemma NoMoves(k: u16)
    ensures ServerSafety.Bracketed(Calls(Run(EMPTY, []).out), k)
  {
  }

  lemma StaysUnbracketed(s: System, v: u16, a: Action, k: u16)
    requires !ServerSafety.Bracketed(Calls(s.out), k)
    ensures !ServerSafety.Bracketed(Calls(Step(s, v, a).out), k)
  {
    hide ServerSafety.Bracketed, ServerSafety.Holder, Calls, Step;
    StepOut(s, v, a);
    if a.Continue? && v in s.handlers && Says(s, v).Some? {
      var o := Says(s, v).value;
      CallsSnoc(s.out, o);
      if o.Call? {
        BracketedSnoc(Calls(s.out), o.callback, k);
      }
    }
  }

  // ----- when notices come in time ----------------------------------------

  /** Handlers between freeing `k` and the last notice of that. */
  predicate Outstanding(h: Handler, k: u16) {
    (Freeing(h) || h.Reported? || h.Telling?) && h.floor == k
  }

  /** The step accepts a request for `k` while another handler has still to tell of its release. */
  predicate Early(s: System, v: u16, a: Action, k: u16) {
    && a.Continue? && v in s.handlers && s.handlers[v].Numbered? && s.handlers[v].floor == k && Change(s, v).Some?
    && exists u :: u in s.handlers && u != v && Outstanding(s.handlers[u], k)
  }

  /** No notice of `k` is outstanding while somebody else has it, and none has come too late. */
  predicate TimelyFor(s: System, u: u16, w: u16, k: u16) {
    u in s.handlers ==>
      && (w in s.handlers && w != u && Owns(s, u, k) ==> !Outstanding(s.handlers[w], k))
      && (Holds(s, u, k) && LastTold(s.out, u, k) == Some(Granted) ==> !Overtaken(s.out, u, k))
  }

  lemma OvertakenSay(out: seq<Output>, o: Output, u: u16, k: u16)
    ensures Overtaken(out + [o], u, k) <==>
              || (o.Notice? && o.to == u && o.floor == k)
              || (!(o.Status? && o.to == u && o.floor == k) && !(o.GoodbyeAck? && o.to == u) && Overtaken(out, u, k))
  {
    assert (out + [o])[..|out + [o]| - 1] == out;
  }

  /** Taking a floor on needs its request accepted. */
  lemma StepTakes(s: System, v: u16, a: Action, k: u16)
    requires FloorOK(s, k) && PlaceOK(s, v) && v != 0 && Owns(Step(s, v, a), v, k) && !Owns(s, v, k)
    ensures a.Continue? && v in s.handlers && s.handlers[v].Numbered? && s.handlers[v].floor == k && Change(s, v).Some?
  {
    hide Says, TcpServer.NoticeTo;
  }

  lemma MovesFree(s: System, v: u16, k: u16)
    requires v in s.handlers && FloorOK(s, k) && v != 0 && Outstanding(Next(s, v), k)
    ensures Outstanding(s.handlers[v], k) || Owns(s, v, k)
  {
  }

  /** Only an owner frees a floor. */
  lemma StepFrees(s: System, v: u16, a: Action, k: u16)
    requires FloorOK(s, k) && v != 0
    requires v in Step(s, v, a).handlers && Outstanding(Step(s, v, a).handlers[v], k)
    ensures v in s.handlers && (Outstanding(s.handlers[v], k) || Owns(s, v, k))
  {
    hide Says, Change, Next;
    if a.Continue? && v in s.handlers {
      MovesFree(s, v, k);
    }
  }

  lemma OwnershipStays(s: System, v: u16, a: Action, u: u16, w: u16, k: u16)
    requires Inv(s) && v != 0 && !Early(s, v, a, k)
    requires forall x: u16, y: u16 :: TimelyFor(s, x, y, k)
    ensures var t := Step(s, v, a);
            u in t.handlers && w in t.handlers && w != u && Owns(t, u, k) ==> !Outstanding(t.handlers[w], k)
  {
    hide Step, LastTold, Overtaken;
    assert FloorOK(s, k) && PlaceOK(s, v) && TimelyFor(s, u, w, k);
    if Owns(Step(s, v, a), v, k) && !Owns(s, v, k) {
      StepTakes(s, v, a, k);
    }
    if v in Step(s, v, a).handlers && Outstanding(Step(s, v, a).handlers[v], k) {
      StepFrees(s, v, a, k);
    }
    NoUserZero(s, v, a);
    if u != v && u != 0 {
      StepFrame(s, v, a, u, k);
    }
    if w != v && w != 0 {
      StepFrame(s, v, a, w, k);
    }
  }

  lemma HearingStays(s: System, v: u16, a: Action, u: u16, k: u16)
    requires Inv(s) && v != 0 && u != 0
    requires forall x: u16, y: u16 :: TimelyFor(s, x, y, k)
    ensures var t := Step(s, v, a);
            u in t.handlers && Holds(t, u, k) && LastTold(t.out, u, k) == Some(Granted) ==> !Overtaken(t.out, u, k)
  {
    hide Step, LastTold, Overtaken;
    assert FloorOK(s, k) && PlaceOK(s, v) && TimelyFor(s, u, v, k) && ToldOK(s, u, k) && PlaceOK(s, u);
    StepOut(s, v, a);
    HoldsBefore(s, v, a, u, k);
    if a.Continue? && v in s.handlers && Says(s, v).Some? {
      var o := Says(s, v).value;
      OvertakenSay(s.out, o, u, k);
      TcpServer.LastToldSay(s.out, o, u, k);
      if o.Notice? && o.floor == k {
        NoticeFrom(s, v, k);
      }
    }
  }

  /** A notice about `k` comes from a handler that has freed it; it leaves the floors alone. */
  lemma NoticeFrom(s: System, v: u16, k: u16)
    requires v in s.handlers && Says(s, v).Some? && Says(s, v).value.Notice? && Says(s, v).value.floor == k
    ensures Outstanding(s.handlers[v], k) && Step(s, v, Continue).floors == s.floors
  {
  }

  /** A floor newly held was awaited. */
  lemma HoldsBefore(s: System, v: u16, a: Action, u: u16, k: u16)
    requires Inv(s) && v != 0 && u != 0
    ensures Holds(Step(s, v, a), u, k) ==>
              Holds(s, u, k) || (u in s.handlers && s.handlers[u].Sleeping? && s.handlers[u].floor == k)
  {
    hide Says, TcpServer.NoticeTo;
    assert FloorOK(s, k) && PlaceOK(s, v);
    if u != v {
      StepFrame(s, v, a, u, k);
    }
  }

  ghost predicate Timely(s: System) {
    forall u: u16, w: u16, k: u16 :: TimelyFor(s, u, w, k)
  }

  lemma StepTimely(s: System, v: u16, a: Action)
    requires Inv(s) && v != 0 && Timely(s) && forall k: u16 :: !Early(s, v, a, k)
    ensures Timely(Step(s, v, a))
  {
    hide Step, LastTold, Overtaken, Early, Inv;
    var t := Step(s, v, a);
    forall u: u16, w: u16, k: u16 ensures TimelyFor(t, u, w, k) {
      assert TimelyFor(s, u, w, k) && 0 !in s.handlers by {
        InvNames(s);
      }
      NoUserZero(s, v, a);
      OwnershipStays(s, v, a, u, w, k);
      if u != 0 {
        HearingStays(s, v, a, u, k);
      }
    }
  }

  lemma InvNames(s: System)
    requires Inv(s)
    ensures 0 !in s.handlers
  {
  }

  ghost predicate InTime(moves: seq<(u16, Action)>) {
    forall n, k: u16 :: 0 <= n < |moves| ==> !EarlyAt(moves, n, k)
  }

  predicate EarlyAt(moves: seq<(u16, Action)>, n: nat, k: u16)
    requires n < |moves|
  {
    Early(Run(EMPTY, moves[..n]), moves[n].0, moves[n].1, k)
  }

  lemma NothingLate()
    ensures Timely(EMPTY)
  {
  }

  lemma {:induction false} RunTimely(moves: seq<(u16, Action)>)
    requires Named(moves) && InTime(moves)
    ensures Timely(Run(EMPTY, moves))
    decreases |moves|
  {
    hide Timely, Run, Step, Early, Inv;
    if moves == [] {
      EmptyRun();
      NothingLate();
    } else {
      var n := |moves| - 1;
      var before := moves[..n];
      forall i, k: u16 | 0 <= i < n ensures !EarlyAt(before, i, k) {
        assert before[..i] == moves[..i] && !EarlyAt(moves, i, k);
      }
      RunTimely(before);
      Reachable(before);
      RunSnoc(EMPTY, moves);
      forall k: u16 ensures !Early(Run(EMPTY, before), moves[n].0, moves[n].1, k) {
        assert !EarlyAt(moves, n, k);
      }
      StepTimely(Run(EMPTY, before), moves[n].0, moves[n].1);
    }
  }

  lemma EmptyRun()
    ensures Run(EMPTY, []) == EMPTY
  {
  }

  /** Over every run in which no request for a floor is accepted before the last notice of its release
      is out, what clients hear is true: settled, a client last heard Granted exactly when it holds the
      floor. */
  lemma TruthInTime(moves: seq<(u16, Action)>, u: u16, k: u16)
    requires Named(moves) && InTime(moves)
    ensures var s := Run(EMPTY, moves);
            u in s.handlers && Settled(s.handlers[u], k) ==> (Heard(s.out, u, k) == Some(Granted) <==> Holds(s, u, k))
  {
    hide Heard, Overtaken, LastTold, InTime, Run;
    RunTimely(moves);
    ClientsAreToldTheTruth(moves, u, k);
    var s := Run(EMPTY, moves);
    assert TimelyFor(s, u, u, k);
  }

  // ----- runs that show both ----------------------------------------------

  /** `n` atomic operations of one handler, undisturbed. */
  function Undisturbed(u: u16, n: nat): (r: seq<(u16, Action)>)
    ensures |r| == n && forall i :: 0 <= i < n ==> r[i] == (u, Continue)
  {
    if n == 0 then [] else [(u, Continue)] + Undisturbed(u, n - 1)
  }

  function Ahead(s: System, u: u16, n: nat): System
    decreases n
  {
    if n == 0 then s else Ahead(Step(s, u, Continue), u, n - 1)
  }

  lemma {:induction false} RunUndisturbed(s: System, u: u16, n: nat)
    ensures Run(s, Undisturbed(u, n)) == Ahead(s, u, n)
    decreases n
  {
    hide Step;
    if n > 0 {
      RunUndisturbed(Step(s, u, Continue), u, n - 1);
    }
  }

  lemma AdvanceStays(s: System, u: u16)
    requires u in s.handlers
    ensures u in Advance(s, u).handlers
  {
  }

  lemma AheadTwo(s: System, u: u16, n: nat)
    requires u in s.handlers
    ensures u in Advance(s, u).handlers && Ahead(s, u, n + 2) == Ahead(Advance(Advance(s, u), u), u, n)
  {
    AdvanceStays(s, u);
    hide Advance;
    assert Ahead(s, u, n + 2) == Ahead(Advance(s, u), u, n + 1);
  }

  /** `t` is `s` but for the handler of `u`, the floor `k`, the counter and the output. */
  predicate Differs(s: System, t: System, u: u16, h: Handler, k: u16, f: Floor) {
    t.handlers == s.handlers[u := h] && t.floors == s.floors[k := f] && t.sessions == s.sessions
  }

  lemma FoundToTaken(s: System, t: System, u: u16, k: u16)
    requires Differs(s, t, u, Found(k, true), k, NewFloor())
    ensures u in Advance(t, u).handlers
    ensures var r := ID(t.ticks + 1);
            Differs(s, Advance(Advance(t, u), u), u, Taken(k, r, true), k, Floor(Pending, u, r, PRIORITY_NORMAL))
  {
    hide ID;
  }

  lemma TakenToDecided(s: System, t: System, u: u16, k: u16, r: u16)
    requires Differs(s, t, u, Taken(k, r, true), k, Floor(Pending, u, r, PRIORITY_NORMAL))
    ensures u in Advance(t, u).handlers
              && Differs(s, Advance(Advance(t, u), u), u, Decided(k, r, true), k, Floor(Granted, u, r, PRIORITY_NORMAL))
  {
  }

  lemma DecidedToIdle(s: System, t: System, u: u16, k: u16, r: u16, f: Floor)
    requires Differs(s, t, u, Decided(k, r, true), k, f)
    ensures u in Advance(t, u).handlers && Differs(s, Advance(Advance(t, u), u), u, Idle, k, f)
  {
  }

  function Granting(u: u16, k: u16): seq<(u16, Action)> {
    [(u, FloorRequest(k, true))] + Undisturbed(u, 6)
  }

  /** Nobody else interfering, a request for a free floor ends with the floor granted. */
  lemma UndisturbedGrant(s: System, u: u16, k: u16)
    requires u in s.handlers && s.handlers[u].Idle? && FloorAt(s, k) == NewFloor()
    ensures var t := Run(s, Granting(u, k)); t.handlers == s.handlers && t.sessions == s.sessions && Holds(t, u, k)
  {
    hide Advance;
    var s0 := Step(s, u, FloorRequest(k, true));
    assert Granting(u, k)[1..] == Undisturbed(u, 6);
    RunUndisturbed(s0, u, 6);
    AheadTwo(s0, u, 4);
    FoundToTaken(s, s0, u, k);
    var s2 := Advance(Advance(s0, u), u);
    AheadTwo(s2, u, 2);
    TakenToDecided(s, s2, u, k, ID(s0.ticks + 1));
    var s4 := Advance(Advance(s2, u), u);
    AheadTwo(s4, u, 0);
    DecidedToIdle(s, s4, u, k, ID(s0.ticks + 1), s4.floors[k]);
  }

  const OPENING: seq<(u16, Action)> := [(1, Connect), (2, Connect), (2, Hello)]
  const FREEING: seq<(u16, Action)> := [(1, FloorRelease(7, 0)), (1, Continue)]
  const NOTICING: seq<(u16, Action)> := [(1, Continue), (1, Continue), (1, Snapshot([2])), (1, Continue)]

  /** User 2 is granted floor 7 after user 1 has freed it, and before user 1's handler says so. */
  const OVERLAP: seq<(u16, Action)> := OPENING + Granting(1, 7) + FREEING + Granting(2, 7)

  lemma RunCons(s: System, u: u16, a: Action, rest: seq<(u16, Action)>)
    ensures Run(s, [(u, a)] + rest) == Run(Step(s, u, a), rest)
  {
    assert ([(u, a)] + rest)[1..] == rest;
  }

  lemma Opening()
    ensures var s := Run(EMPTY, OPENING);
            s.handlers == map[1 := Idle, 2 := Idle] && s.sessions.Keys == {2} && FloorAt(s, 7) == NewFloor()
  {
    var s1 := Step(EMPTY, 1, Connect);
    var s2 := Step(s1, 2, Connect);
    RunCons(EMPTY, 1, Connect, [(2, Connect), (2, Hello)]);
    RunCons(s1, 2, Connect, [(2, Hello)]);
    RunCons(s2, 2, Hello, []);
    assert OPENING == [(1, Connect)] + [(2, Connect), (2, Hello)];
    assert [(2, Connect), (2, Hello)] == [(2, Connect)] + [(2, Hello)] && [(2, Hello)] == [(2, Hello)] + [];
  }

  lemma Freeing7(s: System)
    requires s.handlers == map[1 := Idle, 2 := Idle] && Holds(s, 1, 7)
    ensures var t := Run(s, FREEING);
            t.handlers == map[1 := Freed(7, 0), 2 := Idle] && t.sessions == s.sessions && FloorAt(t, 7) == NewFloor()
  {
    var s1 := Step(s, 1, FloorRelease(7, 0));
    RunCons(s, 1, FloorRelease(7, 0), [(1, Continue)]);
    RunCons(s1, 1, Continue, []);
    assert FREEING == [(1, FloorRelease(7, 0))] + [(1, Continue)] && [(1, Continue)] == [(1, Continue)] + [];
  }

  lemma Overlapped()
    ensures var s := Run(EMPTY, OVERLAP);
            s.handlers == map[1 := Freed(7, 0), 2 := Idle] && s.sessions.Keys == {2} && Holds(s, 2, 7)
  {
    hide Step, Run, Granting;
    Opening();
    var s1 := Run(EMPTY, OPENING);
    UndisturbedGrant(s1, 1, 7);
    RunAppend(EMPTY, OPENING, Granting(1, 7));
    var s2 := Run(s1, Granting(1, 7));
    Freeing7(s2);
    RunAppend(EMPTY, OPENING + Granting(1, 7), FREEING);
    UndisturbedGrant(Run(s2, FREEING), 2, 7);
    RunAppend(EMPTY, OPENING + Granting(1, 7) + FREEING, Granting(2, 7));
  }

  lemma NamedAppend(a: seq<(u16, Action)>, b: seq<(u16, Action)>)
    requires Named(a) && Named(b)
    ensures Named(a + b)
  {
  }

  lemma OverlapNamed()
    ensures Named(OVERLAP) && Named(OVERLAP + NOTICING)
  {
    assert Named(OPENING) && Named(FREEING) && Named(NOTICING) && Named(Granting(1, 7)) && Named(Granting(2, 7));
    hide Named, Granting;
    NamedAppend(OPENING, Granting(1, 7));
    NamedAppend(OPENING + Granting(1, 7), FREEING);
    NamedAppend(OPENING + Granting(1, 7) + FREEING, Granting(2, 7));
    NamedAppend(OVERLAP, NOTICING);
  }

  /** Unlike over UDP, callbacks of different users may overlap: a floor is freed before its release
      is reported, so the next grant can be reported first. */
  lemma CallbacksMayOverlap()
    ensures Named(OVERLAP)
    ensures var s := Run(EMPTY, OVERLAP);
            Open(s.out, 1, 7) && Open(s.out, 2, 7) && !ServerSafety.Bracketed(Calls(s.out), 7)
  {
    hide Step, Run, Open, Alternates, Named, Granting, Calls, ServerSafety.Bracketed;
    OverlapNamed();
    Overlapped();
    CallsReachable(OVERLAP, 1, 7);
    CallsReachable(OVERLAP, 2, 7);
    if ServerSafety.Bracketed(Calls(Run(EMPTY, OVERLAP).out), 7) {
      HolderIsOpen(Run(EMPTY, OVERLAP).out, 7, 1);
      HolderIsOpen(Run(EMPTY, OVERLAP).out, 7, 2);
      assert false;
    }
  }

  /** Only user 1's handler moves. */
  predicate OneMoved(s: System, t: System, h: Handler) {
    t.handlers == s.handlers[1 := h] && t.sessions == s.sessions && t.floors == s.floors
  }

  lemma Reporting7(s: System)
    requires 1 in s.handlers && s.handlers[1] == Freed(7, 0)
    ensures OneMoved(s, Step(s, 1, Continue), Answered(7, 0))
    ensures OneMoved(s, Step(Step(s, 1, Continue), 1, Continue), Reported(7, 0))
  {
    var s1 := Step(s, 1, Continue);
    assert s1.handlers == s.handlers[1 := Answered(7, 0)];
    var s2 := Step(s1, 1, Continue);
    assert s2.handlers == s1.handlers[1 := Reported(7, 0)] == s.handlers[1 := Reported(7, 0)];
  }

  lemma Snapping7(s: System)
    requires 1 in s.handlers && s.handlers[1] == Reported(7, 0) && s.sessions.Keys == {2}
    ensures OneMoved(s, Step(s, 1, Snapshot([2])), Telling(7, 0, [(2, s.sessions[2])]))
  {
    var order: seq<u16> := [2];
    assert s.sessions.Keys - {1} == {2};
    assert multiset(order) == multiset(s.sessions.Keys - {1});
    assert order[1..] == [];
    assert Recipients(s.sessions, order) == [(2, s.sessions[2])] + Recipients(s.sessions, []) == [(2, s.sessions[2])];
    assert Snapped(s, 1, order) == At(s, 1, Telling(7, 0, Recipients(s.sessions, order)));
  }

  lemma Notifying7(s: System)
    requires 1 in s.handlers && 2 in s.sessions && s.handlers[1] == Telling(7, 0, [(2, s.sessions[2])])
    ensures OneMoved(s, Step(s, 1, Continue), Telling(7, 0, []))
    ensures Step(s, 1, Continue).out == s.out + [Notice(2, 1, 7, 0)]
  {
    var recipients := [(2, s.sessions[2])];
    assert recipients[1..] == [];
  }

  /** The last four operations of user 1's release: the answer, the callback, the snapshot, the notice. */
  lemma Noticing7(s: System)
    requires s.handlers == map[1 := Freed(7, 0), 2 := Idle] && s.sessions.Keys == {2} && Holds(s, 2, 7)
    ensures var t := Run(s, NOTICING);
            && 2 in t.handlers && t.handlers[2] == Idle && Holds(t, 2, 7)
            && t.out != [] && t.out[|t.out| - 1] == Notice(2, 1, 7, 0)
  {
    hide Step, Run;
    var s1 := Step(s, 1, Continue);
    var s2 := Step(s1, 1, Continue);
    var s3 := Step(s2, 1, Snapshot([2]));
    Reporting7(s);
    Snapping7(s2);
    Notifying7(s3);
    RunCons(s, 1, Continue, NOTICING[1..]);
    RunCons(s1, 1, Continue, NOTICING[2..]);
    RunCons(s2, 1, Snapshot([2]), NOTICING[3..]);
    RunCons(s3, 1, Continue, []);
    RunNone(Step(s3, 1, Continue));
    assert NOTICING == [(1, Continue)] + NOTICING[1..] && NOTICING[1..] == [(1, Continue)] + NOTICING[2..];
    assert NOTICING[2..] == [(1, Snapshot([2]))] + NOTICING[3..] && NOTICING[3..] == [(1, Continue)] + [];
  }

  lemma RunNone(s: System)
    ensures Run(s, []) == s
  {
  }

  /** A client that holds a floor and is left alone can still last hear that the floor was released: the
      notice of the release before its grant comes late. */
  lemma NoticeMayOvertake()
    ensures Named(OVERLAP + NOTICING)
    ensures var s := Run(EMPTY, OVERLAP + NOTICING);
            && 2 in s.handlers && s.handlers[2].Idle? && Holds(s, 2, 7)
            && Heard(s.out, 2, 7) == Some(Released) && LastTold(s.out, 2, 7) == Some(Granted)
  {
    hide Step, Run, Named, LastTold;
    OverlapNamed();
    Overlapped();
    RunAppend(EMPTY, OVERLAP, NOTICING);
    Noticing7(Run(EMPTY, OVERLAP));
    ClientsAreToldTheTruth(OVERLAP + NOTICING, 2, 7);
  }
}
