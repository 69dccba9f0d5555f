/** The queue of pending floor requests: one backwards bubble pass keeps it sorted, and with a clock
    that does not run backwards it is a first-in-first-out lane for each priority. */
module RequestQueue {
  import opened Wrappers
  import opened Octets

  datatype FloorRequest =
    FloorRequest(floorID: u16, floorRequestID: u16, userID: u16, beneficiaryID: u16, priority: u16, timestamp: int)

  /** `a` has to be ahead of `b`. */
  predicate Outranks(a: FloorRequest, b: FloorRequest) {
    a.priority > b.priority || (a.priority == b.priority && a.timestamp < b.timestamp)
  }

  predicate Sorted(q: seq<FloorRequest>) {
    forall i, j :: 0 <= i < j < |q| ==> !Outranks(q[j], q[i])
  }

  /** `x` behind every request it does not outrank, the others as they were. */
  function Inserted(q: seq<FloorRequest>, x: FloorRequest): (r: seq<FloorRequest>)
    ensures |r| == |q| + 1
    decreases |q|
  {
    if q == [] || !Outranks(x, q[|q| - 1]) then q + [x] else Inserted(q[..|q| - 1], x) + [q[|q| - 1]]
  }

  /** What is left of the bubble pass at index `i`. */
  function Bubbled(s: seq<FloorRequest>, i: nat): seq<FloorRequest>
    requires i < |s| || s == []
    decreases i
  {
    if i == 0 || s == [] then s
    else if Outranks(s[i], s[i - 1]) then Bubbled(s[i := s[i - 1]][i - 1 := s[i]], i - 1)
    else Bubbled(s, i - 1)
  }

  function FirstIndex(q: seq<FloorRequest>, id: u16): Option<nat> {
    if q == [] then None
    else if q[0].floorRequestID == id then Some(0)
    else
      match FirstIndex(q[1..], id)
      case None => None
      case Some(i) => Some(i + 1)
  }

  function Without(q: seq<FloorRequest>, i: nat): seq<FloorRequest>
    requires i < |q|
  {
    q[..i] + q[i + 1..]
  }

  class FloorRequestQueue {
    var requests: seq<FloorRequest>

    predicate Valid()
      reads this
    {
      Sorted(requests)
    }

    constructor ()
      ensures Valid() && requests == []
    {
      requests := [];
    }

    /** `now` is the reading of the clock. */
    method Add(req: FloorRequest, now: int)
      requires Valid()
      modifies this
      ensures Valid() && requests == Inserted(old(requests), req.(timestamp := now))
    {
      var stamped := req.(timestamp := now);
      requests := requests + [stamped];
      var i := |requests| - 1;
      while i > 0
        invariant 0 <= i < |requests|
        invariant Bubbled(requests, i) == Bubbled(old(requests) + [stamped], |old(requests)|)
      {
        if requests[i].priority > requests[i - 1].priority {
          requests := requests[i := requests[i - 1]][i - 1 := requests[i]];
        } else if requests[i].priority == requests[i - 1].priority
          && requests[i].timestamp < requests[i - 1].timestamp {
          requests := requests[i := requests[i - 1]][i - 1 := requests[i]];
        }
        i := i - 1;
      }
      PassInserts(old(requests), stamped, []);
      assert old(requests) + [stamped] + [] == old(requests) + [stamped];
      assert Inserted(old(requests), stamped) + [] == Inserted(old(requests), stamped);
      InsertedSorted(old(requests), stamped);
    }

    method Remove(floorRequestID: u16) returns (removed: bool)
      requires Valid()
      modifies this
      ensures Valid()
      ensures match FirstIndex(old(requests), floorRequestID)
              case None => !removed && requests == old(requests)
              case Some(i) => removed && i < |old(requests)| && requests == Without(old(requests), i)
    {
      var i := Find(floorRequestID);
      if i.None? {
        return false;
      }
      WithoutSorted(requests, i.value);
      requests := requests[..i.value] + requests[i.value + 1..];
      removed := true;
    }

    method Find(floorRequestID: u16) returns (r: Option<nat>)
      ensures r == FirstIndex(requests, floorRequestID)
      ensures r.Some? ==> r.value < |requests|
    {
      var i := 0;
      while i < |requests|
        invariant 0 <= i <= |requests|
        invariant FirstIndex(requests, floorRequestID) == Shifted(FirstIndex(requests[i..], floorRequestID), i)
      {
        if requests[i].floorRequestID == floorRequestID {
          return Some(i);
        }
        assert requests[i..][1..] == requests[i + 1..];
        i := i + 1;
      }
      r := None;
    }

    method PopNext() returns (next: Option<FloorRequest>)
      requires Valid()
      modifies this
      ensures Valid()
      ensures next == if old(requests) == [] then None else Some(old(requests)[0])
      ensures requests == if old(requests) == [] then [] else old(requests)[1..]
    {
      if |requests| == 0 {
        return None;
      }
      next := Some(requests[0]);
      requests := requests[1..];
    }

    method GetPosition(floorRequestID: u16) returns (position: nat)
      ensures position == Position(requests, floorRequestID)
    {
      var i := Find(floorRequestID);
      position := if i.Some? then i.value + 1 else 0;
    }
  }

  function Shifted(i: Option<nat>, n: nat): Option<nat> {
    match i
    case None => None
    case Some(k) => Some(k + n)
  }

  function Position(q: seq<FloorRequest>, id: u16): nat {
    match FirstIndex(q, id)
    case None => 0
    case Some(i) => i + 1
  }

  // ----- the pass is a sorted insertion -----------------------------------

  lemma {:induction false} PassRests(s: seq<FloorRequest>, i: nat)
    requires i < |s| && forall j, k :: 0 <= j < k <= i ==> !Outranks(s[k], s[j])
    ensures Bubbled(s, i) == s
  {
    if i > 0 {
      PassRests(s, i - 1);
    }
  }

  lemma {:induction false} PassInserts(q: seq<FloorRequest>, x: FloorRequest, post: seq<FloorRequest>)
    requires Sorted(q)
    ensures Bubbled(q + [x] + post, |q|) == Inserted(q, x) + post
  {
    var s, n := q + [x] + post, |q|;
    if n > 0 {
      var last, front := q[n - 1], q[..n - 1];
      if Outranks(x, last) {
        assert s[n := s[n - 1]][n - 1 := s[n]] == front + [x] + ([last] + post);
        PassInserts(front, x, [last] + post);
        assert Inserted(front, x) + ([last] + post) == Inserted(front, x) + [last] + post;
      } else {
        PassRests(s, n - 1);
      }
    }
  }

  /** The place of `x`: `Inserted` only splits the queue. */
  lemma {:induction false} InsertedSplits(q: seq<FloorRequest>, x: FloorRequest) returns (p: nat)
    requires Sorted(q)
    ensures p <= |q| && Inserted(q, x) == q[..p] + [x] + q[p..]
    ensures (forall i :: 0 <= i < p ==> !Outranks(x, q[i])) && (forall i :: p <= i < |q| ==> Outranks(x, q[i]))
  {
    if q == [] || !Outranks(x, q[|q| - 1]) {
      p := |q|;
      assert forall i :: 0 <= i < |q| ==> !Outranks(x, q[i]);
    } else {
      var front, last := q[..|q| - 1], q[|q| - 1];
      p := InsertedSplits(front, x);
      assert front[..p] == q[..p] && front[p..] + [last] == q[p..];
      assert front[..p] + [x] + front[p..] + [last] == front[..p] + [x] + (front[p..] + [last]);
    }
  }

  lemma SpliceSorted(q: seq<FloorRequest>, x: FloorRequest, p: nat)
    requires Sorted(q) && p <= |q|
    requires (forall i :: 0 <= i < p ==> !Outranks(x, q[i])) && (forall i :: p <= i < |q| ==> Outranks(x, q[i]))
    ensures Sorted(q[..p] + [x] + q[p..])
  {
    var r := q[..p] + [x] + q[p..];
    forall i, j | 0 <= i < j < |r| ensures !Outranks(r[j], r[i]) {
      var a, b := if i <= p then i else i - 1, if j <= p then j else j - 1;
      assert (i == p || r[i] == q[a]) && (j == p || r[j] == q[b]);
    }
  }

  lemma SpliceAdds(q: seq<FloorRequest>, x: FloorRequest, p: nat)
    requires p <= |q|
    ensures multiset(q[..p] + [x] + q[p..]) == multiset(q) + multiset{x}
  {
    assert q == q[..p] + q[p..];
  }

  /** Sorted stays sorted whatever the clock says, and nothing is lost. */
  lemma InsertedSorted(q: seq<FloorRequest>, x: FloorRequest)
    requires Sorted(q)
    ensures Sorted(Inserted(q, x)) && multiset(Inserted(q, x)) == multiset(q) + multiset{x}
  {
    hide Sorted, Outranks, Inserted;
    var p := InsertedSplits(q, x);
    SpliceSorted(q, x, p);
    SpliceAdds(q, x, p);
  }

  lemma WithoutSorted(q: seq<FloorRequest>, i: nat)
    requires Sorted(q) && i < |q|
    ensures Sorted(Without(q, i)) && multiset(Without(q, i)) == multiset(q) - multiset{q[i]}
  {
    assert q == q[..i] + [q[i]] + q[i + 1..];
  }

  // ----- lanes ------------------------------------------------------------

  /** The requests of one priority, in queue order. */
  function Lane(q: seq<FloorRequest>, p: u16): seq<FloorRequest> {
    if q == [] then [] else (if q[0].priority == p then [q[0]] else []) + Lane(q[1..], p)
  }

  lemma {:induction false} LaneAppend(a: seq<FloorRequest>, b: seq<FloorRequest>, p: u16)
    ensures Lane(a + b, p) == Lane(a, p) + Lane(b, p)
  {
    if a == [] {
      assert a + b == b;
    } else {
      assert (a + b)[1..] == a[1..] + b;
      LaneAppend(a[1..], b, p);
      var first := if a[0].priority == p then [a[0]] else [];
      assert first + (Lane(a[1..], p) + Lane(b, p)) == first + Lane(a[1..], p) + Lane(b, p);
    }
  }

  lemma LaneOne(x: FloorRequest, p: u16)
    ensures Lane([x], p) == if x.priority == p then [x] else []
  {
    assert [x][1..] == [];
  }

  lemma {:induction false} LaneMembers(q: seq<FloorRequest>, p: u16)
    ensures forall e :: e in Lane(q, p) <==> e in q && e.priority == p
  {
    if q != [] {
      LaneMembers(q[1..], p);
      assert forall e :: e in q <==> e == q[0] || e in q[1..];
    }
  }

  lemma LaneEmpty(q: seq<FloorRequest>, p: u16)
    ensures Lane(q, p) == [] <==> forall i :: 0 <= i < |q| ==> q[i].priority != p
  {
    LaneMembers(q, p);
    if Lane(q, p) == [] {
      forall i | 0 <= i < |q| ensures q[i].priority != p {
        assert q[i] in q;
      }
    } else {
      assert Lane(q, p)[0] in Lane(q, p);
    }
  }

  lemma LaneInserted(q: seq<FloorRequest>, x: FloorRequest, k: nat, p: u16)
    requires k <= |q|
    ensures Lane(q[..k] + [x] + q[k..], p) == Lane(q[..k], p) + (if x.priority == p then [x] else []) + Lane(q[k..], p)
    ensures Lane(q, p) == Lane(q[..k], p) + Lane(q[k..], p)
  {
    LaneAppend(q[..k] + [x], q[k..], p);
    LaneAppend(q[..k], [x], p);
    LaneOne(x, p);
    LaneAppend(q[..k], q[k..], p);
    assert q == q[..k] + q[k..];
  }

  /** The pass appends to the lane of its priority exactly when the clock has not run backwards since
      the requests of that lane; the other lanes it leaves alone. */
  lemma AddIsLastInLane(q: seq<FloorRequest>, x: FloorRequest)
    requires Sorted(q)
    ensures forall p: u16 :: p != x.priority ==> Lane(Inserted(q, x), p) == Lane(q, p)
    ensures Lane(Inserted(q, x), x.priority) == Lane(q, x.priority) + [x]
       <==> forall i :: 0 <= i < |q| && q[i].priority == x.priority ==> q[i].timestamp <= x.timestamp
  {
    var k := InsertedSplits(q, x);
    forall p: u16 | p != x.priority ensures Lane(Inserted(q, x), p) == Lane(q, p) {
      LaneInserted(q, x, k, p);
    }
    var a, b := Lane(q[..k], x.priority), Lane(q[k..], x.priority);
    LaneInserted(q, x, k, x.priority);
    LaneEmpty(q[k..], x.priority);
    if b == [] {
      assert a + [x] + b == a + b + [x];
      assert forall i :: k <= i < |q| ==> q[i] == q[k..][i - k];
    } else {
      LaneMembers(q[k..], x.priority);
      assert b[0] in b;
      var i :| k <= i < |q| && q[i] == b[0];
      assert (a + [x] + b)[|a|] == x && (a + b + [x])[|a|] == b[0];
    }
  }

  /** The front of the queue is the first of the best lane, and popping it leaves the rest. */
  lemma PopIsFirstOfBest(q: seq<FloorRequest>)
    requires Sorted(q) && q != []
    ensures var best := q[0].priority;
            && Lane(q, best) == [q[0]] + Lane(q[1..], best)
            && (forall p: u16 :: p > best ==> Lane(q, p) == [])
            && (forall p: u16 :: p != best ==> Lane(q[1..], p) == Lane(q, p))
  {
    forall p: u16 | p > q[0].priority ensures Lane(q, p) == [] {
      LaneEmpty(q, p);
    }
    forall p: u16 | p != q[0].priority ensures Lane(q[1..], p) == Lane(q, p) {
      assert [] + Lane(q[1..], p) == Lane(q[1..], p);
    }
  }

  lemma {:induction false} FirstIndexIs(q: seq<FloorRequest>, id: u16)
    ensures match FirstIndex(q, id)
            case None => forall i :: 0 <= i < |q| ==> q[i].floorRequestID != id
            case Some(i) => i < |q| && q[i].floorRequestID == id && forall j :: 0 <= j < i ==> q[j].floorRequestID != id
  {
    if q != [] {
      FirstIndexIs(q[1..], id);
    }
  }

  lemma {:induction false} FirstIndexAppend(a: seq<FloorRequest>, b: seq<FloorRequest>, id: u16)
    requires forall i :: 0 <= i < |a| ==> a[i].floorRequestID != id
    ensures FirstIndex(a + b, id) == Shifted(FirstIndex(b, id), |a|)
  {
    if a == [] {
      assert a + b == b;
    } else {
      assert (a + b)[1..] == a[1..] + b;
      FirstIndexAppend(a[1..], b, id);
    }
  }

  /** `Remove` takes the first request with that ID out of the best lane that has one. */
  lemma RemoveIsFirstOfBest(q: seq<FloorRequest>, id: u16)
    requires Sorted(q) && FirstIndex(q, id).Some?
    ensures var i := FirstIndex(q, id).value;
            && i < |q|
            && var best := q[i].priority;
               && FirstIndex(Lane(q, best), id).Some?
               && FirstIndex(Lane(q, best), id).value < |Lane(q, best)|
               && Lane(Without(q, i), best) == Without(Lane(q, best), FirstIndex(Lane(q, best), id).value)
               && (forall p: u16 :: p > best ==> FirstIndex(Lane(q, p), id) == None)
               && (forall p: u16 :: p != best ==> Lane(Without(q, i), p) == Lane(q, p))
  {
    FirstIndexIs(q, id);
    var i := FirstIndex(q, id).value;
    var x, a, b := q[i], q[..i], q[i + 1..];
    assert q == a + [x] + b;
    RemovedLane(a, x, b, id);
    forall p: u16 | p != x.priority ensures Lane(Without(q, i), p) == Lane(q, p) {
      LaneSplit(a, x, b, p);
      LaneAppend(a, b, p);
    }
    forall p: u16 | p > x.priority ensures FirstIndex(Lane(q, p), id) == None {
      NotInBetterLane(q, i, id, p);
    }
  }

  lemma NotInBetterLane(q: seq<FloorRequest>, i: nat, id: u16, p: u16)
    requires Sorted(q) && FirstIndex(q, id) == Some(i) && i < |q| && p > q[i].priority
    ensures FirstIndex(Lane(q, p), id) == None
  {
    var lane := Lane(q, p);
    LaneMembers(q, p);
    FirstIndexIs(q, id);
    FirstIndexIs(lane, id);
    forall j | 0 <= j < |lane| ensures lane[j].floorRequestID != id {
      assert lane[j] in lane;
      var k :| 0 <= k < |q| && q[k] == lane[j];
      assert Outranks(q[k], q[i]);
      assert k < i;
    }
  }

  lemma LaneSplit(a: seq<FloorRequest>, x: FloorRequest, b: seq<FloorRequest>, p: u16)
    ensures Lane(a + [x] + b, p) == Lane(a, p) + (if x.priority == p then [x] else []) + Lane(b, p)
  {
    LaneAppend(a + [x], b, p);
    LaneAppend(a, [x], p);
    LaneOne(x, p);
  }

  lemma RemovedLane(a: seq<FloorRequest>, x: FloorRequest, b: seq<FloorRequest>, id: u16)
    requires x.floorRequestID == id && forall i :: 0 <= i < |a| ==> a[i].floorRequestID != id
    ensures var lane, p := Lane(a + [x] + b, x.priority), x.priority;
            && FirstIndex(lane, id) == Some(|Lane(a, p)|) && |Lane(a, p)| < |lane|
            && Lane(a + b, p) == Without(lane, |Lane(a, p)|)
  {
    hide Lane, FirstIndex;
    var p := x.priority;
    var la, lb := Lane(a, p), Lane(b, p);
    LaneSplit(a, x, b, p);
    LaneAppend(a, b, p);
    LaneMembers(a, p);
    forall i | 0 <= i < |la| ensures la[i].floorRequestID != id {
      assert la[i] in la;
    }
    FirstIndexAppend(la, [x] + lb, id);
    FirstOf(x, lb, id);
    assert la + [x] + lb == la + ([x] + lb);
    assert Without(la + [x] + lb, |la|) == la + lb;
  }

  lemma FirstOf(x: FloorRequest, rest: seq<FloorRequest>, id: u16)
    requires x.floorRequestID == id
    ensures FirstIndex([x] + rest, id) == Some(0)
  {
  }

  // ----- every sequence of operations --------------------------------------

  datatype Op = Add(request: FloorRequest, now: int) | Remove(floorRequestID: u16) | PopNext

  function Apply(q: seq<FloorRequest>, op: Op): seq<FloorRequest> {
    match op
    case Add(x, now) => Inserted(q, x.(timestamp := now))
    case Remove(id) =>
      FirstIndexIs(q, id);
      (match FirstIndex(q, id)
       case None => q
       case Some(i) => Without(q, i))
    case PopNext => if q == [] then [] else q[1..]
  }

  /** The queue after a history of operations, latest last. */
  function After(ops: seq<Op>): seq<FloorRequest> {
    if ops == [] then [] else Apply(After(ops[..|ops| - 1]), ops[|ops| - 1])
  }

  /** The requests `op` adds to the queue `q`, and those it takes out. */
  function Added(op: Op): multiset<FloorRequest> {
    match op
    case Add(x, now) => multiset{x.(timestamp := now)}
    case _ => multiset{}
  }

  function Taken(q: seq<FloorRequest>, op: Op): multiset<FloorRequest> {
    match op
    case Add(_, _) => multiset{}
    case Remove(id) =>
      FirstIndexIs(q, id);
      (match FirstIndex(q, id)
       case None => multiset{}
       case Some(i) => multiset{q[i]})
    case PopNext => if q == [] then multiset{} else multiset{q[0]}
  }

  function Present(ops: seq<Op>): multiset<FloorRequest> {
    if ops == [] then multiset{}
    else
      var before, op := ops[..|ops| - 1], ops[|ops| - 1];
      Present(before) + Added(op) - Taken(After(before), op)
  }

  lemma TailSorted(q: seq<FloorRequest>)
    requires Sorted(q) && q != []
    ensures Sorted(q[1..]) && multiset(q[1..]) == multiset(q) - multiset{q[0]}
  {
    assert q == [q[0]] + q[1..];
  }

  lemma ApplyKeeps(q: seq<FloorRequest>, op: Op)
    requires Sorted(q)
    ensures Sorted(Apply(q, op)) && multiset(Apply(q, op)) == multiset(q) + Added(op) - Taken(q, op)
  {
    hide Sorted, Inserted, FirstIndex, Without;
    if op.Add? {
      InsertedSorted(q, op.request.(timestamp := op.now));
    } else if op.Remove? {
      FirstIndexIs(q, op.floorRequestID);
      if FirstIndex(q, op.floorRequestID).Some? {
        WithoutSorted(q, FirstIndex(q, op.floorRequestID).value);
      }
    } else if q != [] {
      TailSorted(q);
    }
  }

  /** Whatever the clock says, the queue is sorted and holds what was added and not taken out. */
  lemma {:induction false} AlwaysSorted(ops: seq<Op>)
    ensures Sorted(After(ops)) && multiset(After(ops)) == Present(ops)
  {
    hide Apply, Taken, Added, Sorted;
    if ops == [] {
      EmptySorted();
    } else {
      AlwaysSorted(ops[..|ops| - 1]);
      ApplyKeeps(After(ops[..|ops| - 1]), ops[|ops| - 1]);
    }
  }

  lemma EmptySorted()
    ensures Sorted([])
  {
  }

  // ----- first come, first served in each lane -----------------------------

  /** The best priority up to `p` whose lane satisfies the test: not empty, or holding an ID. */
  function Best(lanes: u16 -> seq<FloorRequest>, id: Option<u16>, p: u16): Option<u16>
    decreases p
  {
    if (if id.Some? then FirstIndex(lanes(p), id.value).Some? else lanes(p) != []) then Some(p)
    else if p == 0 then None
    else Best(lanes, id, p - 1)
  }

  /** The simple queue: a first-in-first-out lane for each priority. */
  function Fifo(ops: seq<Op>, p: u16): seq<FloorRequest>
    decreases |ops|
  {
    if ops == [] then []
    else
      var op, lanes := ops[|ops| - 1], (k: u16) => Fifo(ops[..|ops| - 1], k);
      match op
      case Add(x, now) => if p == x.priority then lanes(p) + [x.(timestamp := now)] else lanes(p)
      case Remove(id) =>
        FirstIndexIs(lanes(p), id);
        if Best(lanes, Some(id), 0xFFFF) == Some(p) && FirstIndex(lanes(p), id).Some?
        then Without(lanes(p), FirstIndex(lanes(p), id).value) else lanes(p)
      case PopNext => if Best(lanes, None, 0xFFFF) == Some(p) && lanes(p) != [] then lanes(p)[1..] else lanes(p)
  }

  /** The clock never runs backwards. */
  predicate Clocked(ops: seq<Op>) {
    forall i, j :: 0 <= i < j < |ops| && ops[i].Add? && ops[j].Add? ==> ops[i].now <= ops[j].now
  }

  predicate Chosen(lane: seq<FloorRequest>, id: Option<u16>) {
    if id.Some? then FirstIndex(lane, id.value).Some? else lane != []
  }

  lemma {:induction false} BestIs(lanes: u16 -> seq<FloorRequest>, id: Option<u16>, p: u16, best: Option<u16>)
    requires forall k: u16 :: k <= p && (best.Some? ==> k > best.value) ==> !Chosen(lanes(k), id)
    requires best.Some? ==> best.value <= p && Chosen(lanes(best.value), id)
    ensures Best(lanes, id, p) == best
    decreases p
  {
    if !Chosen(lanes(p), id) && p > 0 {
      BestIs(lanes, id, p - 1, best);
    }
  }

  lemma {:induction false} TimesBounded(ops: seq<Op>, t: int)
    requires forall i :: 0 <= i < |ops| && ops[i].Add? ==> ops[i].now <= t
    ensures forall e :: e in After(ops) ==> e.timestamp <= t
  {
    if ops != [] {
      var q, op := After(ops[..|ops| - 1]), ops[|ops| - 1];
      TimesBounded(ops[..|ops| - 1], t);
      AlwaysSorted(ops[..|ops| - 1]);
      ApplyKeeps(q, op);
      forall e | e in Apply(q, op) ensures e.timestamp <= t {
        assert e in multiset(Apply(q, op));
      }
    }
  }

  predicate InLanes(ops: seq<Op>) {
    forall k: u16 :: Lane(After(ops), k) == Fifo(ops, k)
  }

  lemma InLane(ops: seq<Op>, k: u16)
    requires InLanes(ops)
    ensures Lane(After(ops), k) == Fifo(ops, k)
  {
  }

  lemma AddRefines(ops: seq<Op>, p: u16)
    requires Clocked(ops) && ops != [] && ops[|ops| - 1].Add?
    requires InLanes(ops[..|ops| - 1])
    ensures Lane(After(ops), p) == Fifo(ops, p)
  {
    hide Sorted, Outranks, Inserted, Lane, InLanes;
    var before, op := ops[..|ops| - 1], ops[|ops| - 1];
    var q, x := After(before), op.request.(timestamp := op.now);
    AlwaysSorted(before);
    TimesBounded(before, op.now);
    AddIsLastInLane(q, x);
    InLane(before, p);
  }

  function Front(q: seq<FloorRequest>): Option<FloorRequest> {
    if q == [] then None else Some(q[0])
  }

  lemma BestToPop(ops: seq<Op>)
    requires InLanes(ops)
    ensures Best((k: u16) => Fifo(ops, k), None, 0xFFFF)
              == match Front(After(ops)) case None => None case Some(e) => Some(e.priority)
  {
    hide InLanes, After, Fifo;
    AlwaysSorted(ops);
    var q, lanes := After(ops), (k: u16) => Fifo(ops, k);
    forall k: u16 ensures lanes(k) == Lane(q, k) {
      InLane(ops, k);
    }
    if q == [] {
      BestIs(lanes, None, 0xFFFF, None);
    } else {
      PopIsFirstOfBest(q);
      BestIs(lanes, None, 0xFFFF, Some(q[0].priority));
    }
  }

  lemma PopRefines(ops: seq<Op>, p: u16)
    requires ops != [] && ops[|ops| - 1].PopNext? && InLanes(ops[..|ops| - 1])
    ensures Lane(After(ops), p) == Fifo(ops, p)
  {
    hide InLanes, Best;
    var before := ops[..|ops| - 1];
    AlwaysSorted(before);
    InLane(before, p);
    BestToPop(before);
    if After(before) != [] {
      PopIsFirstOfBest(After(before));
    }
  }

  lemma BestToRemove(ops: seq<Op>, id: u16)
    requires InLanes(ops)
    ensures Best((k: u16) => Fifo(ops, k), Some(id), 0xFFFF)
         == match FirstIndex(After(ops), id)
            case None => None
            case Some(i) => if i < |After(ops)| then Some(After(ops)[i].priority) else None
  {
    hide InLanes, After, Fifo;
    AlwaysSorted(ops);
    var q, lanes := After(ops), (k: u16) => Fifo(ops, k);
    FirstIndexIs(q, id);
    forall k: u16 ensures lanes(k) == Lane(q, k) {
      InLane(ops, k);
    }
    if FirstIndex(q, id).None? {
      forall k: u16 ensures FirstIndex(lanes(k), id) == None {
        NotInLane(q, k, id);
      }
      BestIs(lanes, Some(id), 0xFFFF, None);
    } else {
      RemoveIsFirstOfBest(q, id);
      BestIs(lanes, Some(id), 0xFFFF, Some(q[FirstIndex(q, id).value].priority));
    }
  }

  lemma RemoveRefines(ops: seq<Op>, p: u16)
    requires ops != [] && ops[|ops| - 1].Remove? && InLanes(ops[..|ops| - 1])
    ensures Lane(After(ops), p) == Fifo(ops, p)
  {
    hide InLanes, Best;
    var before, id := ops[..|ops| - 1], ops[|ops| - 1].floorRequestID;
    AlwaysSorted(before);
    InLane(before, p);
    BestToRemove(before, id);
    FirstIndexIs(After(before), id);
    if FirstIndex(After(before), id).Some? {
      RemoveIsFirstOfBest(After(before), id);
    }
  }

  lemma NotInLane(q: seq<FloorRequest>, p: u16, id: u16)
    requires FirstIndex(q, id).None?
    ensures FirstIndex(Lane(q, p), id).None?
  {
    FirstIndexIs(q, id);
    FirstIndexIs(Lane(q, p), id);
    LaneMembers(q, p);
    forall i | 0 <= i < |Lane(q, p)| ensures Lane(q, p)[i].floorRequestID != id {
      assert Lane(q, p)[i] in Lane(q, p);
    }
  }

  /** With a clock that never runs backwards, the array and its single bubble pass amount to a
      first-in-first-out lane for each priority, whatever the order of operations. */
  lemma {:induction false} QueueIsLanes(ops: seq<Op>, p: u16)
    requires Clocked(ops)
    ensures Lane(After(ops), p) == Fifo(ops, p)
    decreases |ops|
  {
    hide After, Fifo, Lane;
    if ops == [] {
      NoLanes(p);
    } else {
      var before := ops[..|ops| - 1];
      forall k: u16 ensures Lane(After(before), k) == Fifo(before, k) {
        QueueIsLanes(before, k);
      }
      match ops[|ops| - 1]
      case Add(_, _) => AddRefines(ops, p);
      case Remove(_) => RemoveRefines(ops, p);
      case PopNext => PopRefines(ops, p);
    }
  }

  lemma NoLanes(p: u16)
    ensures Lane(After([]), p) == Fifo([], p)
  {
  }

  /** So `PopNext` returns the earliest arrival of the highest priority. */
  lemma PopIsEarliestOfBest(ops: seq<Op>)
    requires Clocked(ops) && After(ops) != []
    ensures var front := After(ops)[0];
            && Fifo(ops, front.priority) != [] && Fifo(ops, front.priority)[0] == front
            && forall p: u16 :: p > front.priority ==> Fifo(ops, p) == []
  {
    AlwaysSorted(ops);
    PopIsFirstOfBest(After(ops));
    forall p: u16 ensures Lane(After(ops), p) == Fifo(ops, p) {
      QueueIsLanes(ops, p);
    }
  }

  // ----- positions --------------------------------------------------------

  /** The queue after `n` pops. */
  function Popped(q: seq<FloorRequest>, n: nat): seq<FloorRequest> {
    if n == 0 || q == [] then q else Popped(q[1..], n - 1)
  }

  lemma {:induction false} PoppedIs(q: seq<FloorRequest>, n: nat)
    requires n <= |q|
    ensures Popped(q, n) == q[n..]
  {
    if n > 0 {
      PoppedIs(q[1..], n - 1);
    }
  }

  predicate FrontHas(q: seq<FloorRequest>, n: nat, id: u16) {
    Front(Popped(q, n)).Some? && Front(Popped(q, n)).value.floorRequestID == id
  }

  /** The position is `k > 0` exactly when `k - 1` pops bring a request with that ID to the front and
      none of those popped had it; it is 0 exactly when no number of pops does. */
  lemma PositionIsPops(q: seq<FloorRequest>, id: u16, k: nat)
    requires k > 0
    ensures Position(q, id) == k <==> FrontHas(q, k - 1, id) && forall i :: 0 <= i < k - 1 ==> !FrontHas(q, i, id)
    ensures Position(q, id) == 0 <==> forall i: nat :: !FrontHas(q, i, id)
  {
    FirstIndexIs(q, id);
    forall i: nat ensures FrontHas(q, i, id) <==> i < |q| && q[i].floorRequestID == id {
      if i <= |q| {
        PoppedIs(q, i);
      } else {
        PoppedAll(q, i);
      }
    }
  }

  lemma {:induction false} PoppedAll(q: seq<FloorRequest>, n: nat)
    requires n >= |q|
    ensures Popped(q, n) == []
  {
    if q != [] {
      PoppedAll(q[1..], n - 1);
    }
  }

  function Higher(q: seq<FloorRequest>, p: u16): nat {
    if q == [] then 0 else (if q[0].priority > p then 1 else 0) + Higher(q[1..], p)
  }

  lemma {:induction false} AheadCounts(q: seq<FloorRequest>, k: nat)
    requires Sorted(q) && k < |q|
    ensures k == Higher(q, q[k].priority) + |Lane(q[..k], q[k].priority)|
  {
    var p := q[k].priority;
    if k == 0 {
      NoneHigher(q, p);
    } else {
      assert q[1..][..k - 1] == q[..k][1..];
      assert !Outranks(q[k], q[0]);
      AheadCounts(q[1..], k - 1);
    }
  }

  lemma {:induction false} NoneHigher(q: seq<FloorRequest>, p: u16)
    requires forall i :: 0 <= i < |q| ==> q[i].priority <= p
    ensures Higher(q, p) == 0
  {
    if q != [] {
      NoneHigher(q[1..], p);
    }
  }

  lemma IndexCounts(q: seq<FloorRequest>, id: u16)
    requires Sorted(q) && FirstIndex(q, id).Some?
    ensures var i := FirstIndex(q, id).value;
            && i < |q|
            && var p, lane := q[i].priority, Lane(q, q[i].priority);
               FirstIndex(lane, id).Some? && i == Higher(q, p) + FirstIndex(lane, id).value
  {
    hide Sorted, FirstIndex, Lane, Higher;
    FirstIndexIs(q, id);
    var i := FirstIndex(q, id).value;
    AheadCounts(q, i);
    assert q == q[..i] + [q[i]] + q[i + 1..];
    RemovedLane(q[..i], q[i], q[i + 1..], id);
  }

  /** The position counts the requests of higher priority and those ahead in its own lane, which with
      a clock that never runs backwards are the earlier arrivals. */
  lemma PositionCounts(ops: seq<Op>, id: u16)
    requires Clocked(ops) && Position(After(ops), id) > 0
    ensures var q, k := After(ops), Position(After(ops), id);
            && k <= |q|
            && var p, lane := q[k - 1].priority, Fifo(ops, q[k - 1].priority);
               && FirstIndex(lane, id).Some?
               && k == 1 + Higher(q, p) + FirstIndex(lane, id).value
  {
    hide Sorted, FirstIndex, Lane, Higher, After, Fifo, Clocked;
    var q := After(ops);
    AlwaysSorted(ops);
    IndexCounts(q, id);
    QueueIsLanes(ops, q[FirstIndex(q, id).value].priority);
  }
}
