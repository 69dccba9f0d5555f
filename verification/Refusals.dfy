/** Why the server refuses something, with the error code and the text it sends. */
module Refusals {
  import opened Octets
  import opened FloorState

  datatype Refusal =
    | NoFloorID
    | RequestRefused(error: FloorError)
    | NoSuchFloor(floor: u16)
    | NoSuchRequest(requestID: u16)
    | NoRequestID
    | ReleaseRefused(error: FloorError)
    | NothingQueried

  const ERROR_UNKNOWN_MANDATORY_ATTRIBUTE: u8 := 4
  const ERROR_UNAUTHORIZED_OPERATION: u8 := 5
  const ERROR_INVALID_FLOOR_ID: u8 := 6
  const ERROR_FLOOR_REQUEST_ID_DOES_NOT_EXIST: u8 := 7
  const ERROR_FLOOR_RELEASE_DENIED: u8 := 10

  function ErrorCode(why: Refusal): u8 {
    match why
    case NoFloorID => ERROR_INVALID_FLOOR_ID
    case RequestRefused(_) => ERROR_UNAUTHORIZED_OPERATION
    case NoSuchFloor(_) => ERROR_INVALID_FLOOR_ID
    case NoSuchRequest(_) => ERROR_FLOOR_REQUEST_ID_DOES_NOT_EXIST
    case NoRequestID => ERROR_UNKNOWN_MANDATORY_ATTRIBUTE
    case ReleaseRefused(_) => ERROR_FLOOR_RELEASE_DENIED
    case NothingQueried => ERROR_UNKNOWN_MANDATORY_ATTRIBUTE
  }

  /** `%d` of a number that is not negative. */
  function Decimal(n: nat): string {
    (if n < 10 then "" else Decimal(n / 10)) + [('0' as int + n % 10) as char]
  }

  /** `%s` of a status. */
  function Name(s: Status): string {
    match s
    case Pending => "Pending"
    case Accepted => "Accepted"
    case Granted => "Granted"
    case Denied => "Denied"
    case Cancelled => "Cancelled"
    case Released => "Released"
    case Revoked => "Revoked"
  }

  function ErrorText(error: FloorError): string {
    match error
    case AlreadyInUse(floor, owner) => "floor " + Decimal(floor) + " already in use by user " + Decimal(owner)
    case InvalidState(status) => "invalid floor state: " + Name(status)
    case NotOwner(user, floor, owner) =>
      "user " + Decimal(user) + " does not own floor " + Decimal(floor) + " (owner: " + Decimal(owner) + ")"
  }

  function Text(why: Refusal): string {
    match why
    case NoFloorID => "No floor ID in request"
    case RequestRefused(error) => ErrorText(error)
    case NoSuchFloor(floor) => "Floor " + Decimal(floor) + " does not exist"
    case NoSuchRequest(requestID) => "FloorRequestID " + Decimal(requestID) + " does not exist"
    case NoRequestID => "Missing FLOOR-REQUEST-ID attribute"
    case ReleaseRefused(error) => ErrorText(error)
    case NothingQueried => "Missing FLOOR-ID attribute"
  }

  function Digits(n: nat): nat {
    if n < 10 then 1 else 1 + Digits(n / 10)
  }

  lemma {:induction false} DecimalLength(n: nat)
    ensures |Decimal(n)| == Digits(n)
  {
    if n >= 10 {
      DecimalLength(n / 10);
    }
  }

  predicate IsDigit(c: char) {
    '0' <= c <= '9'
  }

  /** The value of a string of decimal digits. */
  function Value(s: string): nat {
    if s == "" then 0
    else Value(s[..|s| - 1]) * 10 + (if IsDigit(s[|s| - 1]) then s[|s| - 1] as int - '0' as int else 0)
  }

  lemma ValueSnoc(s: string, d: nat)
    requires d < 10
    ensures var c := ('0' as int + d) as char; IsDigit(c) && Value(s + [c]) == Value(s) * 10 + d
  {
    var c := ('0' as int + d) as char;
    assert (s + [c])[..|s + [c]| - 1] == s;
  }

  /** The numbers in the texts are written as digits that read back, without leading zeros. */
  lemma {:induction false} DecimalReads(n: nat)
    ensures Value(Decimal(n)) == n && (forall i :: 0 <= i < |Decimal(n)| ==> IsDigit(Decimal(n)[i]))
    ensures Decimal(n) != "" && (n > 0 ==> Decimal(n)[0] != '0')
  {
    hide Value, IsDigit;
    if n >= 10 {
      DecimalReads(n / 10);
      ValueSnoc(Decimal(n / 10), n % 10);
    } else {
      ValueSnoc("", n);
      NoDigits();
      assert "" + [('0' as int + n) as char] == [('0' as int + n) as char];
    }
  }

  lemma NoDigits()
    ensures Value("") == 0
  {
  }

  lemma DecimalFits(n: u16)
    ensures |Decimal(n)| <= 5
  {
    var a := n as int / 10;
    var b := a / 10;
    var c := b / 10;
    assert c / 10 < 10 && Digits(c / 10) == 1;
    assert Digits(c) <= 2;
    assert Digits(b) <= 3;
    assert Digits(a) <= 4;
    DecimalLength(n);
  }

  /** Every text is there and fits one ERROR-INFO attribute. */
  lemma TextFits(why: Refusal)
    ensures 0 < |Text(why)| <= 100
  {
    hide Decimal;
    forall n: u16 ensures |Decimal(n)| <= 5 {
      DecimalFits(n);
    }
  }

  /** The octets of a text; every text sent is ASCII. */
  function Bytes(s: string): (r: seq<u8>)
    ensures |r| == |s|
  {
    if s == "" then [] else [(s[0] as int % 0x100) as u8] + Bytes(s[1..])
  }
}
