/** Allocation of user IDs to virtual clients: the pool with its 16-bit loop, and the manager that
    returns IDs to it outside its own lock. */
module UserIds {
  import opened Wrappers
  import opened Octets
  import FloorServer

  // ----- the pool ---------------------------------------------------------

  /** How the scanning loop ends; it may go round for ever. */
  datatype Outcome = Got(id: u16) | Exhausted | Endless

  function Range(start: u16, end: u16): (ids: set<u16>)
    ensures forall id: u16 :: id in ids <==> start <= id <= end
    decreases end
  {
    if start > end then {} else if start == end then {end} else Range(start, end - 1) + {end}
  }

  /** `id++` on 16 bits. */
  function Increment(id: u16): u16 {
    if id == 0xFFFF then 0 else id + 1
  }

  /** The loop of `Allocate` at `id`, watched for `steps` more turns. */
  function Scanned(end: u16, taken: set<u16>, id: u16, steps: nat): Outcome
    decreases steps
  {
    if id > end then Exhausted
    else if id !in taken then Got(id)
    else if steps == 0 then Endless
    else Scanned(end, taken, Increment(id), steps - 1)
  }

  function Allocation(start: u16, end: u16, taken: set<u16>): Outcome {
    Scanned(end, taken, start, 0xFFFF)
  }

  lemma {:induction false} ScanUp(end: u16, taken: set<u16>, id: u16, steps: nat)
    requires id <= end && end - id <= steps && exists k: u16 :: id <= k <= end && k !in taken
    ensures var r := Scanned(end, taken, id, steps);
            && r.Got? && id <= r.id <= end && r.id !in taken
            && forall k: u16 :: id <= k < r.id ==> k in taken
    decreases steps
  {
    if id in taken {
      ScanUp(end, taken, Increment(id), steps - 1);
    }
  }

  lemma {:induction false} ScanPast(end: u16, taken: set<u16>, id: u16, steps: nat)
    requires end < 0xFFFF && end - id < steps as int && forall k: u16 :: id <= k <= end ==> k in taken
    ensures Scanned(end, taken, id, steps) == Exhausted
    decreases steps
  {
    if id <= end {
      ScanPast(end, taken, Increment(id), steps - 1);
    }
  }

  /** Past 65535 the loop starts again at 0. */
  lemma {:induction false} ScanRound(taken: set<u16>, id: u16, steps: nat)
    requires 0xFFFF - id < steps as int && forall k: u16 :: id <= k ==> k in taken
    ensures Scanned(0xFFFF, taken, id, steps) == Scanned(0xFFFF, taken, 0, steps - (0x1_0000 - id))
    decreases steps
  {
    if id < 0xFFFF {
      ScanRound(taken, id + 1, steps - 1);
    }
  }

  lemma {:induction false} ScanFull(taken: set<u16>, id: u16, steps: nat)
    requires forall k: u16 :: k in taken
    ensures Scanned(0xFFFF, taken, id, steps) == Endless
    decreases steps
  {
    if steps > 0 {
      ScanFull(taken, Increment(id), steps - 1);
    }
  }

  predicate AllTaken(start: u16, end: u16, taken: set<u16>) {
    forall k: u16 :: start <= k <= end ==> k in taken
  }

  /** With a free ID in the range the least one is returned. Otherwise a range that stops short of
      65535 reports exhaustion, and one that reaches it wraps: it returns the least free ID below
      `start`, outside the range, or never ends when there is none. */
  lemma AllocationIs(start: u16, end: u16, taken: set<u16>)
    ensures !AllTaken(start, end, taken) ==>
              var r := Allocation(start, end, taken);
              && r.Got? && start <= r.id <= end && r.id !in taken
              && forall k: u16 :: start <= k < r.id ==> k in taken
    ensures AllTaken(start, end, taken) && (end < 0xFFFF || start > end) ==> Allocation(start, end, taken) == Exhausted
    ensures AllTaken(start, end, taken) && end == 0xFFFF ==>
              var r := Allocation(start, end, taken);
              if AllTaken(0, 0xFFFF, taken) then r == Endless
              else r.Got? && r.id < start && r.id !in taken && forall k: u16 :: k < r.id ==> k in taken
  {
    if !AllTaken(start, end, taken) {
      ScanUp(end, taken, start, 0xFFFF);
    } else if start > end {
    } else if end < 0xFFFF {
      ScanPast(end, taken, start, 0xFFFF);
    } else if AllTaken(0, 0xFFFF, taken) {
      ScanFull(taken, start, 0xFFFF);
    } else {
      BelowStart(start, taken);
    }
  }

  lemma BelowStart(start: u16, taken: set<u16>)
    requires AllTaken(start, 0xFFFF, taken) && !AllTaken(0, 0xFFFF, taken)
    ensures var r := Allocation(start, 0xFFFF, taken);
            r.Got? && r.id < start && r.id !in taken && forall k: u16 :: k < r.id ==> k in taken
  {
    ScanRound(taken, start, 0xFFFF);
    ScanToFree(taken, 0, start - 1);
  }

  lemma {:induction false} ScanToFree(taken: set<u16>, id: u16, steps: nat)
    requires exists k: u16 :: id <= k <= id + steps && k !in taken
    ensures var r := Scanned(0xFFFF, taken, id, steps);
            r.Got? && id <= r.id <= id + steps && r.id !in taken && forall k: u16 :: id <= k < r.id ==> k in taken
    decreases steps
  {
    if id in taken {
      ScanToFree(taken, id + 1, steps - 1);
    }
  }

  /** `Allocate` keeps to its range exactly when the range ends below 65535 or has an ID left. */
  lemma StaysInRange(start: u16, end: u16, taken: set<u16>)
    requires start <= end
    ensures (Allocation(start, end, taken).Got? ==> start <= Allocation(start, end, taken).id <= end)
            && Allocation(start, end, taken) != Endless
       <==> end < 0xFFFF || !AllTaken(start, end, taken)
  {
    AllocationIs(start, end, taken);
  }

  lemma {:induction false} ScanLonger(end: u16, taken: set<u16>, id: u16, steps: nat, more: nat)
    requires steps <= more
    ensures Scanned(end, taken, id, steps) in {Endless, Scanned(end, taken, id, more)}
    decreases steps
  {
    if steps > 0 {
      ScanLonger(end, taken, Increment(id), steps - 1, more - 1);
    }
  }

  /** 65535 turns decide how the loop ends. */
  lemma ScanSettles(start: u16, end: u16, taken: set<u16>, turns: nat)
    ensures Scanned(end, taken, start, turns) in {Endless, Allocation(start, end, taken)}
    ensures turns >= 0xFFFF ==> Scanned(end, taken, start, turns) == Allocation(start, end, taken)
  {
    AllocationIs(start, end, taken);
    if turns < 0xFFFF {
      ScanLonger(end, taken, start, turns, 0xFFFF);
    } else {
      ScanLonger(end, taken, start, 0xFFFF, turns);
      if Allocation(start, end, taken) == Endless {
        ScanFull(taken, start, turns);
      }
    }
  }

  class UserIDPool {
    const start: u16
    const end: u16
    var taken: set<u16>

    constructor (start: u16, end: u16)
      ensures this.start == start && this.end == end && taken == {}
    {
      this.start, this.end, this.taken := start, end, {};
    }

    /** The loop watched for `turns` turns: `Endless` when it is still scanning then. It has settled
        after 65535 of them, and goes on for ever if it has not ended. */
    method Allocate(turns: nat) returns (r: Outcome)
      modifies this
      ensures r == Endless || r == Allocation(start, end, old(taken))
      ensures turns >= 0xFFFF ==> r == Allocation(start, end, old(taken))
      ensures taken == if r.Got? then old(taken) + {r.id} else old(taken)
    {
      ScanSettles(start, end, taken, turns);
      var id: u16 := start;
      var left := turns;
      while id <= end
        invariant Scanned(end, taken, id, left) == Scanned(end, taken, start, turns) && taken == old(taken)
        decreases left
      {
        if id !in taken {
          taken := taken + {id};
          return Got(id);
        }
        if left == 0 {
          return Endless;
        }
        id := if id == 0xFFFF then 0 else id + 1;
        left := left - 1;
      }
      r := Exhausted;
    }

    method AllocateSpecific(id: u16) returns (ok: bool)
      modifies this
      ensures ok <==> start <= id <= end && id !in old(taken)
      ensures taken == if ok then old(taken) + {id} else old(taken)
    {
      if id < start || id > end {
        return false;
      }
      if id in taken {
        return false;
      }
      taken := taken + {id};
      ok := true;
    }

    method Release(id: u16)
      modifies this
      ensures taken == old(taken) - {id}
    {
      taken := taken - {id};
    }

    /** The number of free IDs, exactly when the pool has kept to its range and the range is not all of
        0 to 65535; a range that runs backwards counts as what lies outside it. */
    method Available() returns (n: int)
      ensures start <= end ==> (n == |Range(start, end) - taken| <==> Counted(start, end, taken))
      ensures start <= end && !Full(start, end) ==> n == |Range(start, end)| - |taken|
      ensures Full(start, end) || start == end + 1 ==> n == -|taken|
      ensures start > end + 1 ==> n == |Range(0, end)| + |Range(start, 0xFFFF)| - |taken|
    {
      hide Range;
      AvailableCounts(start, end, taken);
      RemainingIs(start, end, taken);
      var total := (end - start + 1) % 0x1_0000;
      n := total - |taken|;
    }
  }

  /** The count `Available` computes, on 16 bits before it is widened. */
  function Remaining(start: u16, end: u16, taken: set<u16>): int {
    (end - start + 1) % 0x1_0000 - |taken|
  }

  predicate Full(start: u16, end: u16) {
    start == 0 && end == 0xFFFF
  }

  /** When `Available` tells the truth. */
  predicate Counted(start: u16, end: u16, taken: set<u16>) {
    taken <= Range(start, end) && !Full(start, end)
  }

  lemma {:induction false} RangeSize(start: u16, end: u16)
    requires start <= end
    ensures |Range(start, end)| == end - start + 1
  {
    if start < end {
      RangeSize(start, end - 1);
    }
  }

  lemma LeftOver(all: set<u16>, taken: set<u16>)
    ensures |all| - |taken| == |all - taken| <==> taken <= all
  {
    assert all == (all - taken) + (all * taken);
    assert taken == (taken - all) + (all * taken);
    if taken - all == {} {
      assert taken <= all;
    } else {
      var id :| id in taken - all;
      assert id in taken && id !in all;
    }
  }

  /** `Available` is the number of free IDs exactly when only IDs of the range are taken and the range
      is not all of 0 to 65535. */
  lemma AvailableCounts(start: u16, end: u16, taken: set<u16>)
    ensures start <= end ==>
              (Remaining(start, end, taken) == |Range(start, end) - taken| <==> Counted(start, end, taken))
  {
    hide Range, Remaining;
    if start <= end {
      RemainingIs(start, end, taken);
      RangeSize(start, end);
      LeftOver(Range(start, end), taken);
    }
  }

  /** What the 16-bit subtraction amounts to. */
  lemma RemainingIs(start: u16, end: u16, taken: set<u16>)
    ensures start <= end && !Full(start, end) ==> Remaining(start, end, taken) == |Range(start, end)| - |taken|
    ensures Full(start, end) || start == end + 1 ==> Remaining(start, end, taken) == -|taken|
    ensures start > end + 1 ==> Remaining(start, end, taken) == |Range(0, end)| + |Range(start, 0xFFFF)| - |taken|
  {
    hide Range;
    if start <= end {
      RangeSize(start, end);
    } else {
      RangeSize(0, end);
      RangeSize(start, 0xFFFF);
    }
  }

  /** The second way to fail: a range ending at 65535 wraps below its start when it is used up, and the
      count then goes negative. */
  lemma WrappedPool()
    ensures var taken := After(0xFFFE, 0xFFFF, [Allocate, Allocate, Allocate]);
            && taken == {0xFFFE, 0xFFFF, 0}
            && Remaining(0xFFFE, 0xFFFF, taken) == -1 && Range(0xFFFE, 0xFFFF) - taken == {}
  {
    var calls := [Allocate, Allocate, Allocate];
    assert calls[..2] == [Allocate, Allocate] && calls[..2][..1] == [Allocate] && calls[..2][..1][..0] == [];
    AllocationIs(0xFFFE, 0xFFFF, {});
    AllocationIs(0xFFFE, 0xFFFF, {0xFFFE});
    AllocationIs(0xFFFE, 0xFFFF, {0xFFFE, 0xFFFF});
    assert After(0xFFFE, 0xFFFF, calls[..2][..1]) == {0xFFFE};
    assert After(0xFFFE, 0xFFFF, calls[..2]) == {0xFFFE, 0xFFFF};
  }

  datatype PoolCall = Allocate | AllocateSpecific(id: u16) | Release(id: u16)

  function Called(start: u16, end: u16, taken: set<u16>, call: PoolCall): set<u16> {
    match call
    case Allocate =>
      (match Allocation(start, end, taken)
       case Got(id) => taken + {id}
       case _ => taken)
    case AllocateSpecific(id) => if start <= id <= end then taken + {id} else taken
    case Release(id) => taken - {id}
  }

  function After(start: u16, end: u16, calls: seq<PoolCall>): set<u16> {
    if calls == [] then {} else Called(start, end, After(start, end, calls[..|calls| - 1]), calls[|calls| - 1])
  }

  /** Over every run of a pool whose range ends below 65535: only IDs of the range are out, `Allocate`
      gets the least free one or fails exactly when there is none, and `Available` counts the free. */
  lemma {:induction false} PoolRuns(start: u16, end: u16, calls: seq<PoolCall>)
    requires start <= end < 0xFFFF
    ensures var taken := After(start, end, calls);
            && taken <= Range(start, end)
            && Remaining(start, end, taken) == |Range(start, end) - taken|
            && match Allocation(start, end, taken)
               case Got(id) =>
                 id in Range(start, end) - taken && forall k :: k in Range(start, end) - taken ==> id <= k
               case Exhausted => Range(start, end) == taken
               case Endless => false
  {
    hide Remaining, Range, Called;
    if calls != [] {
      PoolRuns(start, end, calls[..|calls| - 1]);
      CallStaysInside(start, end, After(start, end, calls[..|calls| - 1]), calls[|calls| - 1]);
    }
    EmptyInside(start, end);
    PoolState(start, end, After(start, end, calls));
  }

  lemma EmptyInside(start: u16, end: u16)
    ensures After(start, end, []) <= Range(start, end)
  {
  }

  lemma CallStaysInside(start: u16, end: u16, taken: set<u16>, call: PoolCall)
    requires start <= end < 0xFFFF && taken <= Range(start, end)
    ensures Called(start, end, taken, call) <= Range(start, end)
  {
    AllocationIs(start, end, taken);
  }

  lemma PoolState(start: u16, end: u16, taken: set<u16>)
    requires start <= end < 0xFFFF && taken <= Range(start, end)
    ensures Remaining(start, end, taken) == |Range(start, end) - taken|
    ensures match Allocation(start, end, taken)
            case Got(id) => id in Range(start, end) - taken && forall k :: k in Range(start, end) - taken ==> id <= k
            case Exhausted => Range(start, end) == taken
            case Endless => false
  {
    hide Remaining;
    AllocationIs(start, end, taken);
    AvailableCounts(start, end, taken);
  }

  /** A range that runs backwards never hands an ID out, and `Available` counts its free IDs, none,
      exactly when it is just one short. */
  lemma {:induction false} BackwardRuns(start: u16, end: u16, calls: seq<PoolCall>)
    requires start > end
    ensures After(start, end, calls) == {} && Allocation(start, end, {}) == Exhausted
    ensures Remaining(start, end, After(start, end, calls)) == |Range(start, end)| <==> start == end + 1
  {
    if calls != [] {
      BackwardRuns(start, end, calls[..|calls| - 1]);
    }
  }

  // ----- the manager, interleaved -----------------------------------------

  /** `clients` maps names to user IDs. `creating` is the creation that holds the manager's lock, its
      user ID already allocated; `closing` are the IDs of clients taken from the map whose release to
      the pool is still to come. */
  datatype State = State(start: u16, end: u16, clients: map<string, u16>, creating: Option<(string, u16)>,
                         closing: multiset<u16>, taken: set<u16>)

  datatype Step =
    | BeginCreate(name: string)
    | BeginCreateWith(name: string, id: u16)
    | FinishCreate(ok: bool)
    | Take(name: string)
    | TakeAll(order: seq<string>)
    | GiveBack(id: u16)

  function Start(start: u16, end: u16): State {
    State(start, end, map[], None, multiset{}, {})
  }

  function Begun(s: State, name: string, id: u16): State {
    s.(creating := Some((name, id)), taken := s.taken + {id})
  }

  function IDsOf(clients: map<string, u16>, order: seq<string>): multiset<u16>
    requires forall i :: 0 <= i < |order| ==> order[i] in clients
  {
    if order == [] then multiset{} else multiset{clients[order[0]]} + IDsOf(clients, order[1..])
  }

  /** Steps that need the manager's lock wait while a creation holds it; the pool has a lock of its own. */
  ghost predicate Enabled(s: State, step: Step) {
    match step
    case BeginCreate(name) =>
      s.creating.None? && name != "" && name !in s.clients && Allocation(s.start, s.end, s.taken).Got?
    case BeginCreateWith(name, id) =>
      s.creating.None? && name != "" && name !in s.clients && s.start <= id <= s.end && id !in s.taken
    case FinishCreate(_) => s.creating.Some?
    case Take(name) => s.creating.None? && name in s.clients
    case TakeAll(order) => s.creating.None? && FloorServer.Walks(order, s.clients.Keys)
    case GiveBack(id) => id in s.closing
  }

  ghost function Stepped(s: State, step: Step): State
    requires Enabled(s, step)
  {
    match step
    case BeginCreate(name) => Begun(s, name, Allocation(s.start, s.end, s.taken).id)
    case BeginCreateWith(name, id) => Begun(s, name, id)
    case FinishCreate(ok) =>
      var (name, id) := s.creating.value;
      if ok then s.(creating := None, clients := s.clients[name := id])
      else s.(creating := None, taken := s.taken - {id})
    case Take(name) => s.(clients := s.clients - {name}, closing := s.closing + multiset{s.clients[name]})
    case TakeAll(order) =>
      assert forall i :: 0 <= i < |order| ==> order[i] in order;
      s.(clients := map[], closing := s.closing + IDsOf(s.clients, order))
    case GiveBack(id) => s.(closing := s.closing - multiset{id}, taken := s.taken - {id})
  }

  // ----- conservation -----------------------------------------------------

  function NamesOf(clients: map<string, u16>, id: u16): set<string> {
    set name | name in clients && clients[name] == id
  }

  /** How many live clients, creations and removals hold a user ID. */
  function Holders(s: State, id: u16): nat {
    |NamesOf(s.clients, id)| + s.closing[id] + (if s.creating.Some? && s.creating.value.1 == id then 1 else 0)
  }

  /** Every ID taken from the pool has one holder, every other one none. */
  ghost predicate Conserved(s: State) {
    && (forall id: u16 :: Holders(s, id) == if id in s.taken then 1 else 0)
    && (s.creating.Some? ==> s.creating.value.0 !in s.clients)
  }

  lemma NamesAdded(clients: map<string, u16>, name: string, u: u16, id: u16)
    requires name !in clients
    ensures |NamesOf(clients[name := u], id)| == |NamesOf(clients, id)| + (if u == id then 1 else 0)
  {
    assert NamesOf(clients[name := u], id) == NamesOf(clients, id) + (if u == id then {name} else {});
  }

  lemma NamesRemoved(clients: map<string, u16>, name: string, id: u16)
    requires name in clients
    ensures |NamesOf(clients, id)| == |NamesOf(clients - {name}, id)| + (if clients[name] == id then 1 else 0)
  {
    assert NamesOf(clients, id) == NamesOf(clients - {name}, id) + (if clients[name] == id then {name} else {});
  }

  lemma {:induction false} NamesCounted(clients: map<string, u16>, order: seq<string>, id: u16)
    requires FloorServer.Walks(order, clients.Keys)
    requires forall i :: 0 <= i < |order| ==> order[i] in clients
    ensures IDsOf(clients, order)[id] == |NamesOf(clients, id)|
    decreases order
  {
    if order == [] {
      assert NamesOf(clients, id) == {};
    } else {
      var rest, fewer := order[1..], clients - {order[0]};
      assert forall x :: x in order <==> x == order[0] || x in rest;
      assert order[0] !in rest;
      NamesCounted(fewer, rest, id);
      NamesRemoved(clients, order[0], id);
      SameIDs(clients, fewer, rest);
    }
  }

  lemma {:induction false} SameIDs(clients: map<string, u16>, fewer: map<string, u16>, order: seq<string>)
    requires forall i :: 0 <= i < |order| ==>
               order[i] in clients && order[i] in fewer && clients[order[i]] == fewer[order[i]]
    ensures IDsOf(clients, order) == IDsOf(fewer, order)
    decreases order
  {
    if order != [] {
      SameIDs(clients, fewer, order[1..]);
    }
  }

  lemma StepConserves(s: State, step: Step, id: u16)
    requires Conserved(s) && Enabled(s, step)
    ensures Holders(Stepped(s, step), id) == if id in Stepped(s, step).taken then 1 else 0
  {
    assert Holders(s, id) == if id in s.taken then 1 else 0;
    match step
    case BeginCreate(_) =>
      AllocationIs(s.start, s.end, s.taken);
    case BeginCreateWith(_, _) =>
    case FinishCreate(ok) =>
      if ok {
        NamesAdded(s.clients, s.creating.value.0, s.creating.value.1, id);
      }
    case Take(name) =>
      NamesRemoved(s.clients, name, id);
    case TakeAll(order) =>
      assert forall i :: 0 <= i < |order| ==> order[i] in order;
      NamesCounted(s.clients, order, id);
      assert NamesOf(map[], id) == {};
    case GiveBack(_) =>
  }

  lemma StepKeepsConserved(s: State, step: Step)
    requires Conserved(s) && Enabled(s, step)
    ensures Conserved(Stepped(s, step))
  {
    hide Holders;
    forall id: u16 ensures Holders(Stepped(s, step), id) == if id in Stepped(s, step).taken then 1 else 0 {
      StepConserves(s, step, id);
    }
  }

  /** A run of the manager from an empty start, in any interleaving. */
  ghost predicate IsRun(states: seq<State>, steps: seq<Step>) {
    && |states| == |steps| + 1 && states[0] == Start(states[0].start, states[0].end)
    && forall i :: 0 <= i < |steps| ==> Enabled(states[i], steps[i]) && states[i + 1] == Stepped(states[i], steps[i])
  }

  lemma {:induction false} ManagerConserves(states: seq<State>, steps: seq<Step>, n: nat)
    requires IsRun(states, steps) && n < |states|
    ensures Conserved(states[n])
  {
    hide Enabled, Stepped, Conserved;
    if n == 0 {
      StartConserved(states[0].start, states[0].end);
    } else {
      ManagerConserves(states, steps, n - 1);
      StepKeepsConserved(states[n - 1], steps[n - 1]);
    }
  }

  lemma StartConserved(start: u16, end: u16)
    ensures Conserved(Start(start, end))
  {
    forall id: u16 ensures Holders(Start(start, end), id) == 0 {
      assert NamesOf(map[], id) == {};
    }
  }

  /** In every interleaving: two live clients never share a user ID, and a client does not share one
      with a client being removed or created. */
  lemma UserIDsAreUnique(states: seq<State>, steps: seq<Step>, n: nat, a: string, b: string)
    requires IsRun(states, steps) && n < |states| && a in states[n].clients
    ensures var s := states[n];
            && (b in s.clients && s.clients[a] == s.clients[b] ==> a == b)
            && s.clients[a] !in s.closing && (s.creating.Some? ==> s.creating.value.1 != s.clients[a])
            && s.clients[a] in s.taken
  {
    hide IsRun;
    ManagerConserves(states, steps, n);
    var s := states[n];
    var id := s.clients[a];
    var names := NamesOf(s.clients, id);
    assert Holders(s, id) == if id in s.taken then 1 else 0;
    assert a in names && |names| == 1 + |names - {a}|;
    assert names - {a} == {};
    assert b in s.clients && s.clients[b] == id ==> b in names - {a} || b == a;
  }

  /** No ID is released twice: whoever gives one back is its last holder, and afterwards nobody has it. */
  lemma ReleasedOnce(states: seq<State>, steps: seq<Step>, n: nat, id: u16)
    requires IsRun(states, steps) && n < |steps|
    requires steps[n] == GiveBack(id) || (steps[n] == FinishCreate(false) && states[n].creating.value.1 == id)
    ensures id in states[n].taken && Holders(states[n], id) == 1
    ensures id !in states[n + 1].taken && Holders(states[n + 1], id) == 0
  {
    ManagerConserves(states, steps, n);
    ManagerConserves(states, steps, n + 1);
    assert Holders(states[n], id) == if id in states[n].taken then 1 else 0;
  }

  /** A new client's ID had no holder before. */
  lemma NewIDIsFree(states: seq<State>, steps: seq<Step>, n: nat)
    requires IsRun(states, steps) && n < |steps| && (steps[n].BeginCreate? || steps[n].BeginCreateWith?)
    ensures states[n + 1].creating.Some? && Holders(states[n], states[n + 1].creating.value.1) == 0
  {
    ManagerConserves(states, steps, n);
    AllocationIs(states[n].start, states[n].end, states[n].taken);
  }

  // ----- created clients stay ---------------------------------------------

  /** A creation begun at step `n` and finished at step `m`: it holds the lock, so only IDs were given back
      meanwhile. */
  ghost predicate Creates(states: seq<State>, steps: seq<Step>, n: nat, m: nat, name: string, ok: bool) {
    && IsRun(states, steps) && n < m < |steps| && steps[m] == FinishCreate(ok)
    && (steps[n] == BeginCreate(name) || (steps[n].BeginCreateWith? && steps[n].name == name))
    && forall i :: n < i < m ==> steps[i].GiveBack?
  }

  lemma {:induction false} LockHeld(states: seq<State>, steps: seq<Step>, n: nat, m: nat)
    requires IsRun(states, steps) && n < m <= |steps| && forall i :: n < i < m ==> steps[i].GiveBack?
    ensures states[m].creating == states[n + 1].creating && states[m].clients == states[n + 1].clients
    decreases m
  {
    if n + 1 < m {
      LockHeld(states, steps, n, m - 1);
      assert Enabled(states[m - 1], steps[m - 1]) && states[m] == Stepped(states[m - 1], steps[m - 1]);
    }
  }

  lemma FinishMeans(s: State, ok: bool)
    requires s.creating.Some?
    ensures var (t, name, id) := (Stepped(s, FinishCreate(ok)), s.creating.value.0, s.creating.value.1);
            && t.creating == None && t.closing == s.closing
            && t.clients == (if ok then s.clients[name := id] else s.clients)
            && t.taken == (if ok then s.taken else s.taken - {id})
  {
  }

  lemma BeginMeans(s: State, step: Step)
    requires Enabled(s, step) && (step.BeginCreate? || step.BeginCreateWith?)
    ensures var t := Stepped(s, step);
            && t.creating.Some? && t.creating.value.0 == step.name && t.creating.value.1 !in s.taken
            && (step.BeginCreateWith? ==> t.creating.value.1 == step.id)
            && t.clients == s.clients && t.taken == s.taken + {t.creating.value.1}
  {
    AllocationIs(s.start, s.end, s.taken);
  }

  /** A creation that succeeds adds exactly its client, under an ID that was free and is the one asked for,
      if one was; one that fails adds none and its ID is free again. */
  lemma CreationAdds(states: seq<State>, steps: seq<Step>, n: nat, m: nat, name: string, ok: bool) returns (id: u16)
    requires Creates(states, steps, n, m, name, ok)
    ensures id !in states[n].taken && name !in states[n].clients
    ensures steps[n].BeginCreateWith? ==> id == steps[n].id
    ensures states[m].creating == Some((name, id))
    ensures states[m + 1].clients == if ok then states[n].clients[name := id] else states[n].clients
    ensures id in states[m + 1].taken <==> ok
  {
    hide Stepped, Conserved;
    assert Enabled(states[n], steps[n]) && states[n + 1] == Stepped(states[n], steps[n]);
    assert Enabled(states[m], steps[m]) && states[m + 1] == Stepped(states[m], steps[m]);
    BeginMeans(states[n], steps[n]);
    LockHeld(states, steps, n, m);
    FinishMeans(states[m], ok);
    id := states[m].creating.value.1;
    ManagerConserves(states, steps, m);
    CreatorHolds(states[m]);
  }

  lemma CreatorHolds(s: State)
    requires Conserved(s) && s.creating.Some?
    ensures s.creating.value.1 in s.taken && s.creating.value.0 !in s.clients
  {
    assert Holders(s, s.creating.value.1) == if s.creating.value.1 in s.taken then 1 else 0;
  }

  predicate Removes(step: Step, name: string) {
    step == Take(name) || step.TakeAll?
  }

  lemma StepKeepsName(s: State, step: Step, name: string, id: u16)
    requires Enabled(s, step) && !Removes(step, name) && name in s.clients && s.clients[name] == id
    requires s.creating.Some? ==> s.creating.value.0 != name
    ensures name in Stepped(s, step).clients && Stepped(s, step).clients[name] == id
  {
  }

  /** From then on the name has that client, in every interleaving, until it is removed. */
  lemma {:induction false} NameStays(states: seq<State>, steps: seq<Step>, n: nat, m: nat, name: string, id: u16)
    requires IsRun(states, steps) && n <= m <= |steps| && name in states[n].clients && states[n].clients[name] == id
    requires forall i :: n <= i < m ==> !Removes(steps[i], name)
    ensures name in states[m].clients && states[m].clients[name] == id
    decreases m
  {
    hide Conserved, Stepped, Enabled;
    if n < m {
      NameStays(states, steps, n, m - 1, name, id);
      ManagerConserves(states, steps, m - 1);
      var s, step := states[m - 1], steps[m - 1];
      assert Enabled(s, step) && states[m] == Stepped(s, step) && !Removes(step, name);
      if s.creating.Some? {
        CreatorHolds(s);
      }
      StepKeepsName(s, step, name, id);
    }
  }

  /** Two creations have different IDs unless the first client was removed in between. */
  lemma CreationsDiffer(states: seq<State>, steps: seq<Step>, n: nat, m: nat, a: string, i: nat, j: nat, b: string,
                        ok: bool)
    requires Creates(states, steps, n, m, a, true) && Creates(states, steps, i, j, b, ok) && m < i
    requires forall k :: m < k < j ==> !Removes(steps[k], a)
    ensures states[m].creating.Some? && states[j].creating.Some?
    ensures states[m].creating.value.0 == a && states[j].creating.value.0 == b && a != b
    ensures states[m].creating.value.1 != states[j].creating.value.1
  {
    assert |states| == |steps| + 1;
    hide IsRun;
    var id := CreationAdds(states, steps, n, m, a, true);
    var other := CreationAdds(states, steps, i, j, b, ok);
    NameStays(states, steps, m + 1, i, a, id);
    NameStays(states, steps, m + 1, j, a, id);
    UserIDsAreUnique(states, steps, j, a, a);
  }

  // ----- the manager object -----------------------------------------------

  datatype ManagerError =
    | EmptyName | AlreadyExists | OutsideRange | NoneLeft | InUse | NewFailed | NotFound | CloseFailed | StillScanning

  class Client {
    const name: string
    const userID: u16

    constructor (name: string, userID: u16)
      ensures this.name == name && this.userID == userID
    {
      this.name, this.userID := name, userID;
    }
  }

  /** `t` is `s` with one client more, under an ID that was free. */
  predicate Added(s: State, t: State, name: string, id: u16) {
    name !in s.clients && id !in s.taken && t == s.(clients := s.clients[name := id], taken := s.taken + {id})
  }

  /** `t` is `s` with one client less, its ID free. */
  predicate Dropped(s: State, t: State, name: string) {
    name in s.clients && t == s.(clients := s.clients - {name}, taken := s.taken - {s.clients[name]})
  }

  class Manager {
    const pool: UserIDPool
    var clients: map<string, Client>

    ghost function Value(): State
      reads this, pool
    {
      State(pool.start, pool.end, map n | n in clients :: clients[n].userID, None, multiset{}, pool.taken)
    }

    /** Defaults as `NewManager` fills them in: the range is never empty and never starts at 0. */
    constructor (rangeStart: u16, rangeEnd: u16)
      ensures Value() == Start(pool.start, pool.end) && 0 < pool.start <= pool.end
      ensures 0 < rangeStart <= rangeEnd ==> pool.start == rangeStart && pool.end == rangeEnd
      ensures rangeStart == 0 && rangeEnd >= 100 ==> pool.start == 100 && pool.end == rangeEnd
      ensures 0 < rangeStart <= 1000 && rangeEnd == 0 ==> pool.start == rangeStart && pool.end == 1000
      ensures rangeStart == 0 && rangeEnd < 100 ==> pool.start == 100 && pool.end == 1000
      ensures 0 < rangeEnd < rangeStart ==> pool.start == 100 && pool.end == 1000
      ensures rangeStart > 1000 && rangeEnd == 0 ==> pool.start == 100 && pool.end == 1000
      ensures fresh(pool)
    {
      var first: u16 := if rangeStart == 0 then 100 else rangeStart;
      var last: u16 := if rangeEnd == 0 then 1000 else rangeEnd;
      if first > last {
        first, last := 100, 1000;
      }
      pool := new UserIDPool(first, last);
      clients := map[];
    }

    /** `newOK` tells whether the client can be created, `turns` how long the allocation is watched: the
        source returns nothing while it is still scanning. */
    method CreateClient(name: string, turns: nat, newOK: bool) returns (r: Result<Client, ManagerError>)
      modifies this, pool
      ensures var s := old(Value());
              if name == "" then r == Failure(EmptyName) && Value() == s
              else if name in s.clients then r == Failure(AlreadyExists) && Value() == s
              else if r == Failure(StillScanning) then
                Value() == s && (turns < 0xFFFF || Allocation(s.start, s.end, s.taken) == Endless)
              else if Allocation(s.start, s.end, s.taken) == Exhausted then r == Failure(NoneLeft) && Value() == s
              else
                && Enabled(s, BeginCreate(name))
                && Value() == Stepped(Stepped(s, BeginCreate(name)), FinishCreate(newOK))
                && if newOK then r.Success? && r.value.userID == Allocation(s.start, s.end, s.taken).id
                   else r == Failure(NewFailed)
      ensures r.Success? ==>
                Added(old(Value()), Value(), name, r.value.userID) && clients == old(clients)[name := r.value]
      ensures r.Success? ==> fresh(r.value) && r.value.name == name
      ensures r.Failure? ==> Value() == old(Value()) && clients == old(clients)
    {
      AllocationIs(pool.start, pool.end, pool.taken);
      if name == "" {
        return Failure(EmptyName);
      }
      if name in clients {
        return Failure(AlreadyExists);
      }
      var outcome := pool.Allocate(turns);
      if outcome.Endless? {
        return Failure(StillScanning);
      }
      if outcome.Exhausted? {
        return Failure(NoneLeft);
      }
      r := Finish(name, outcome.id, newOK);
    }

    method CreateClientWithUserID(name: string, userID: u16, newOK: bool) returns (r: Result<Client, ManagerError>)
      modifies this, pool
      ensures var s := old(Value());
              if name == "" then r == Failure(EmptyName) && Value() == s
              else if userID < s.start || userID > s.end then r == Failure(OutsideRange) && Value() == s
              else if name in s.clients then r == Failure(AlreadyExists) && Value() == s
              else if userID in s.taken then r == Failure(InUse) && Value() == s
              else
                && Value() == Stepped(Stepped(s, BeginCreateWith(name, userID)), FinishCreate(newOK))
                && if newOK then r.Success? && r.value.userID == userID else r == Failure(NewFailed)
      ensures r.Success? ==> Added(old(Value()), Value(), name, userID) && clients == old(clients)[name := r.value]
      ensures r.Success? ==> fresh(r.value) && r.value.name == name && r.value.userID == userID
      ensures r.Failure? ==> Value() == old(Value()) && clients == old(clients)
    {
      if name == "" {
        return Failure(EmptyName);
      }
      if userID < pool.start || userID > pool.end {
        return Failure(OutsideRange);
      }
      if name in clients {
        return Failure(AlreadyExists);
      }
      var ok := pool.AllocateSpecific(userID);
      if !ok {
        return Failure(InUse);
      }
      r := Finish(name, userID, newOK);
    }

    /** The rest of a creation, its user ID already allocated. */
    method Finish(name: string, userID: u16, newOK: bool) returns (r: Result<Client, ManagerError>)
      requires name !in clients
      modifies this`clients, pool
      ensures r.Success? ==> fresh(r.value) && r.value.name == name && clients == old(clients)[name := r.value]
      ensures r.Failure? ==> clients == old(clients) && Value() == old(Value()).(taken := old(Value()).taken - {userID})
      ensures Value() == Stepped(old(Value()).(creating := Some((name, userID))), FinishCreate(newOK))
      ensures if newOK then r.Success? && r.value.userID == userID else r == Failure(NewFailed)
    {
      if !newOK {
        pool.Release(userID);
        return Failure(NewFailed);
      }
      var client := new Client(name, userID);
      clients := clients[name := client];
      r := Success(client);
    }

    /** The ID goes back to the pool whether or not closing the client succeeds. */
    method RemoveClient(name: string, closeOK: bool) returns (r: Result<(), ManagerError>)
      modifies this, pool
      ensures var s := old(Value());
              if name !in s.clients then r == Failure(NotFound) && Value() == s
              else
                && Value() == Stepped(Stepped(s, Take(name)), GiveBack(s.clients[name]))
                && r == if closeOK then Success(()) else Failure(CloseFailed)
      ensures name in old(clients) ==> Dropped(old(Value()), Value(), name) && clients == old(clients) - {name}
    {
      if name !in clients {
        return Failure(NotFound);
      }
      var client := clients[name];
      clients := clients - {name};
      pool.Release(client.userID);
      r := if closeOK then Success(()) else Failure(CloseFailed);
    }

    /** The clients are taken from the map at once, then closed and their IDs released one by one;
        `closing` is what closing the client of a user ID returns. The first error is reported. */
    method RemoveAll(closing: u16 -> Option<CloseError>) returns (r: Option<CloseError>, ghost order: seq<string>)
      modifies this, pool
      ensures Value() == old(Value()).(clients := map[], taken := old(Value()).taken - old(Value()).clients.Values)
      ensures FloorServer.Walks(order, old(Value()).clients.Keys)
      ensures |order| == |old(Value()).clients| && r == FirstError(UserIDs(old(Value()).clients, order), closing)
    {
      hide FirstError, UserIDs;
      ghost var s := Value();
      var list;
      list, order := Snapshot();
      ghost var ids := UserIDs(s.clients, order);
      clients := map[];
      r := CloseAll(list, ids, closing);
      IDsWalked(s.clients, order);
    }

    method CloseAll(list: seq<Client>, ghost ids: seq<u16>, closing: u16 -> Option<CloseError>)
      returns (r: Option<CloseError>)
      requires |list| == |ids| && forall i :: 0 <= i < |list| ==> list[i].userID == ids[i]
      modifies pool
      ensures pool.taken == old(pool.taken) - set j | 0 <= j < |ids| :: ids[j]
      ensures r == FirstError(ids, closing)
    {
      r := None;
      var i := 0;
      while i < |list|
        invariant 0 <= i <= |list|
        invariant pool.taken == old(pool.taken) - set j | 0 <= j < i :: ids[j]
        invariant FirstError(ids, closing) == if r.Some? then r else FirstError(ids[i..], closing)
      {
        var err := closing(list[i].userID);
        if err.Some? && r.None? {
          r := err;
        }
        pool.Release(list[i].userID);
        i := i + 1;
      }
    }

    /** The clients of the map, each once. */
    method Snapshot() returns (list: seq<Client>, ghost order: seq<string>)
      ensures FloorServer.Walks(order, clients.Keys) && |list| == |order|
      ensures forall i :: 0 <= i < |list| ==> order[i] in clients && list[i] == clients[order[i]]
    {
      list, order := [], [];
      var todo := clients.Keys;
      while todo != {}
        invariant todo <= clients.Keys && |list| == |order|
        invariant FloorServer.Walks(order, clients.Keys - todo)
        invariant forall i :: 0 <= i < |list| ==> order[i] in clients && list[i] == clients[order[i]]
      {
        var n :| n in todo;
        assert n !in order && forall y :: y in order + [n] <==> y in order || y == n;
        todo, list, order := todo - {n}, list + [clients[n]], order + [n];
      }
    }
  }

  type CloseError = string

  /** The user IDs of the clients, in some order of their names. */
  function UserIDs(clients: map<string, u16>, order: seq<string>): (ids: seq<u16>)
    ensures |ids| == |order| && forall i :: 0 <= i < |order| && order[i] in clients ==> ids[i] == clients[order[i]]
  {
    if order == [] then [] else [if order[0] in clients then clients[order[0]] else 0] + UserIDs(clients, order[1..])
  }

  function FirstError(ids: seq<u16>, closing: u16 -> Option<CloseError>): Option<CloseError> {
    if ids == [] then None else if closing(ids[0]).Some? then closing(ids[0]) else FirstError(ids[1..], closing)
  }

  /** The error reported is that of the first client that failed to close; none if all closed. */
  lemma {:induction false} FirstErrorIs(ids: seq<u16>, closing: u16 -> Option<CloseError>)
    ensures FirstError(ids, closing) == None <==> forall i :: 0 <= i < |ids| ==> closing(ids[i]) == None
    ensures FirstError(ids, closing).Some? ==>
              exists i :: 0 <= i < |ids| && closing(ids[i]) == FirstError(ids, closing)
                          && forall j :: 0 <= j < i ==> closing(ids[j]) == None
  {
    if ids != [] {
      var rest := ids[1..];
      FirstErrorIs(rest, closing);
      assert forall j :: 0 < j < |ids| ==> ids[j] == rest[j - 1];
      if closing(ids[0]).Some? {
        assert closing(ids[0]) == FirstError(ids, closing);
      } else if FirstError(rest, closing).Some? {
        var i :| 0 <= i < |rest| && closing(rest[i]) == FirstError(rest, closing)
                 && forall j :: 0 <= j < i ==> closing(rest[j]) == None;
        assert closing(ids[i + 1]) == FirstError(ids, closing) && forall j :: 0 <= j < i + 1 ==>
                 closing(ids[j]) == None;
      }
    }
  }

  lemma IDsWalked(clients: map<string, u16>, order: seq<string>)
    requires FloorServer.Walks(order, clients.Keys)
    ensures clients.Values == set j | 0 <= j < |order| :: UserIDs(clients, order)[j]
    ensures |order| == |clients|
  {
    var ids := UserIDs(clients, order);
    forall id: u16 | id in clients.Values ensures exists j :: 0 <= j < |order| && ids[j] == id {
      var n :| n in clients && clients[n] == id;
      assert n in order;
      var j :| 0 <= j < |order| && order[j] == n;
      assert ids[j] == id;
    }
    forall j | 0 <= j < |order| ensures ids[j] in clients.Values {
      assert order[j] in order;
    }
    WalkLength(order, clients.Keys);
    assert |clients| == |clients.Keys|;
  }

  lemma {:induction false} WalkLength(order: seq<string>, all: set<string>)
    requires FloorServer.Walks(order, all)
    ensures |order| == |all|
    decreases order
  {
    if order != [] {
      assert forall x :: x in order <==> x == order[0] || x in order[1..];
      assert order[0] !in order[1..];
      WalkLength(order[1..], all - {order[0]});
    } else {
      assert all == {};
    }
  }
}
