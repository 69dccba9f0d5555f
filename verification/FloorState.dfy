/** The state machine of one floor. */
module FloorState {
  import opened Wrappers
  import opened Octets

  datatype Status = Pending | Accepted | Granted | Denied | Cancelled | Released | Revoked

  /** The REQUEST-STATUS value of a status (section 5.2.5 of RFC 8855). */
  function Code(s: Status): u8 {
    match s
    case Pending => 1
    case Accepted => 2
    case Granted => 3
    case Denied => 4
    case Cancelled => 5
    case Released => 6
    case Revoked => 7
  }

  /** Why a floor refuses a Request or a Release. */
  datatype FloorError =
    | AlreadyInUse(floor: u16, owner: u16)
    | InvalidState(status: Status)
    | NotOwner(user: u16, floor: u16, owner: u16)

  /** The value of a floor, with the five operations on it; None when the source returns an error. */
  datatype Floor = Floor(status: Status, owner: u16, requestID: u16, priority: u16) {

    function Request(user: u16, requestID: u16, priority: u16): Option<Floor> {
      if status.Released? then Some(Floor(Pending, user, requestID, priority)) else None
    }

    /** The error of a refused Request. */
    function NotRequestable(floorID: u16): FloorError {
      if status.Pending? || status.Granted? then AlreadyInUse(floorID, owner) else InvalidState(status)
    }

    function Grant(): Option<Floor> {
      if status.Pending? then Some(this.(status := Granted)) else None
    }

    function Deny(): Option<Floor> {
      if status.Pending? then Some(this.(status := Denied, owner := 0, requestID := 0)) else None
    }

    function Release(user: u16): Option<Floor> {
      if owner != user && user != 0 then None else Some(NewFloor())
    }

    function Revoke(): Floor {
      this.(status := Released, owner := 0, requestID := 0)
    }
  }

  function NewFloor(): Floor {
    Floor(Released, 0, 0, 0)
  }

  class FloorStateMachine {
    const floorID: u16
    var currentState: Status
    var ownerUserID: u16
    var floorRequestID: u16
    var priority: u16

    function Value(): Floor
      reads this
    {
      Floor(currentState, ownerUserID, floorRequestID, priority)
    }

    constructor (floorID: u16)
      ensures this.floorID == floorID && Value() == NewFloor()
    {
      this.floorID := floorID;
      currentState, ownerUserID, floorRequestID, priority := Released, 0, 0, 0;
    }

    method Request(userID: u16, requestID: u16, priority: u16) returns (status: Status, err: Option<FloorError>)
      modifies this
      ensures err == if old(Value()).Request(userID, requestID, priority).Some? then None
                     else Some(old(Value()).NotRequestable(floorID))
      ensures Value() == old(Value()).Request(userID, requestID, priority).GetOr(old(Value()))
      ensures status == if err.None? then Pending else Denied
    {
      match currentState {
        case Released =>
          ownerUserID := userID;
          floorRequestID := requestID;
          this.priority := priority;
          currentState := Pending;
          return Pending, None;
        case Pending | Granted =>
          return Denied, Some(AlreadyInUse(floorID, ownerUserID));
        case _ =>
          return Denied, Some(InvalidState(currentState));
      }
    }

    method Grant() returns (ok: bool)
      modifies this
      ensures ok <==> old(Value()).Grant().Some?
      ensures Value() == old(Value()).Grant().GetOr(old(Value()))
    {
      if currentState != Pending {
        return false;
      }
      currentState := Granted;
      ok := true;
    }

    method Deny() returns (ok: bool)
      modifies this
      ensures ok <==> old(Value()).Deny().Some?
      ensures Value() == old(Value()).Deny().GetOr(old(Value()))
    {
      if currentState != Pending {
        return false;
      }
      currentState := Denied;
      ownerUserID := 0;
      floorRequestID := 0;
      ok := true;
    }

    method Release(userID: u16) returns (err: Option<FloorError>)
      modifies this
      ensures err == if old(Value()).Release(userID).Some? then None
                     else Some(NotOwner(userID, floorID, old(ownerUserID)))
      ensures Value() == old(Value()).Release(userID).GetOr(old(Value()))
    {
      if ownerUserID != userID && userID != 0 {
        return Some(NotOwner(userID, floorID, ownerUserID));
      }
      currentState := Released;
      ownerUserID := 0;
      floorRequestID := 0;
      priority := 0;
      err := None;
    }

    /** Revoking a floor nobody holds reports an error, but still moves it to Released. */
    method Revoke() returns (ok: bool)
      modifies this
      ensures ok <==> old(ownerUserID) != 0
      ensures Value() == old(Value()).Revoke()
    {
      currentState := Revoked;
      var prevOwner := ownerUserID;
      ownerUserID := 0;
      floorRequestID := 0;
      currentState := Released;
      ok := prevOwner != 0;
    }

    predicate IsAvailable()
      reads this
    {
      currentState == Released
    }
  }

  // ----- every call sequence ----------------------------------------------

  datatype Call =
    | CallRequest(user: u16, requestID: u16, priority: u16)
    | CallGrant
    | CallDeny
    | CallRelease(user: u16)
    | CallRevoke

  function Apply(f: Floor, c: Call): Floor {
    match c
    case CallRequest(user, requestID, priority) => f.Request(user, requestID, priority).GetOr(f)
    case CallGrant => f.Grant().GetOr(f)
    case CallDeny => f.Deny().GetOr(f)
    case CallRelease(user) => f.Release(user).GetOr(f)
    case CallRevoke => f.Revoke()
  }

  /** The floor after a history of calls, latest last. */
  function After(calls: seq<Call>): Floor {
    if calls == [] then NewFloor() else Apply(After(calls[..|calls| - 1]), calls[|calls| - 1])
  }

  /** The last Request of the history that was accepted. */
  function LastAccepted(calls: seq<Call>): Option<Call> {
    if calls == [] then None
    else
      var before, c := calls[..|calls| - 1], calls[|calls| - 1];
      if c.CallRequest? && After(before).Request(c.user, c.requestID, c.priority).Some? then Some(c)
      else LastAccepted(before)
  }

  predicate NamedRequests(calls: seq<Call>) {
    forall i :: 0 <= i < |calls| && calls[i].CallRequest? ==> calls[i].user != 0
  }

  /** Over every history: only four states occur, the floor has an owner exactly while Pending or
      Granted, and that owner and request are those of the last accepted Request. */
  lemma {:induction false} Histories(calls: seq<Call>)
    requires NamedRequests(calls)
    ensures var f := After(calls);
            && (f.status.Released? || f.status.Pending? || f.status.Granted? || f.status.Denied?)
            && (f.owner != 0 <==> f.status.Pending? || f.status.Granted?)
            && (f.owner != 0 ==>
                  && LastAccepted(calls).Some?
                  && LastAccepted(calls).value == CallRequest(f.owner, f.requestID, f.priority))
            && (f.owner == 0 ==> f.requestID == 0)
  {
    if calls != [] {
      Histories(calls[..|calls| - 1]);
    }
  }

  predicate Unblocks(c: Call) {
    c.CallRevoke? || (c.CallRelease? && c.user == 0)
  }

  /** A floor Denied and without owner is freed by exactly the calls that unblock. */
  lemma OnlyUnblocksFrees(f: Floor, c: Call)
    requires f.status.Denied? && f.owner == 0
    ensures Unblocks(c) <==> Apply(f, c).status.Released?
    ensures !Unblocks(c) ==> Apply(f, c) == f
  {
  }

  /** A Denied floor stays as it is, refusing every Request, until Revoke or a Release by user 0,
      either of which frees it. */
  lemma {:induction false} DeniedStays(calls: seq<Call>, more: seq<Call>)
    requires NamedRequests(calls) && After(calls).status.Denied?
    requires forall i :: 0 <= i < |more| ==> !Unblocks(more[i])
    ensures After(calls + more) == After(calls)
    ensures forall u: u16, r: u16, p: u16 :: After(calls + more).Request(u, r, p) == None
    ensures forall c: Call :: Unblocks(c) <==> Apply(After(calls + more), c).status.Released?
  {
    Histories(calls);
    var f := After(calls);
    forall c: Call ensures Unblocks(c) <==> Apply(f, c).status.Released? {
      OnlyUnblocksFrees(f, c);
    }
    if more == [] {
      assert calls + more == calls;
    } else {
      var before, last := more[..|more| - 1], more[|more| - 1];
      DeniedStays(calls, before);
      assert (calls + more)[..|calls + more| - 1] == calls + before;
      OnlyUnblocksFrees(f, last);
    }
  }
}
