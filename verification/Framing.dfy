/** Message framing on a byte stream: `ReadMessage` and `WriteMessage` over TCP. */
module Framing {
  import opened Wrappers
  import opened Octets
  import opened Tlv
  import opened Messages
  import opened Codec

  datatype ReadError = ShortRead | BadMessage(decode: DecodeError)

  /** A reader whose remaining octets are all it will ever deliver. */
  class Reader {
    var rest: seq<u8>

    constructor (octets: seq<u8>)
      ensures rest == octets
    {
      rest := octets;
    }

    /** `io.ReadFull`: all `n` octets, or an error after draining what was left. */
    method ReadFull(n: nat) returns (r: Option<seq<u8>>)
      modifies this
      ensures n <= |old(rest)| ==> r == Some(old(rest)[..n]) && rest == old(rest)[n..]
      ensures n > |old(rest)| ==> r == None && rest == []
    {
      if n > |rest| {
        rest := [];
        return None;
      }
      r := Some(rest[..n]);
      rest := rest[n..];
    }
  }

  function WordCount(header: seq<u8>): u16
    requires |header| == COMMON_HEADER_LENGTH
  {
    GetU16(header[2..4])
  }

  /** One call of `ReadMessage`: its result and what is left of the stream. */
  function ReadOne(stream: seq<u8>): (Result<Msg, ReadError>, seq<u8>) {
    if |stream| < COMMON_HEADER_LENGTH then (Failure(ShortRead), [])
    else
      var end := COMMON_HEADER_LENGTH + 4 * WordCount(stream[..COMMON_HEADER_LENGTH]) as int;
      if |stream| < end then (Failure(ShortRead), [])
      else
        match Decoding(stream[..end])
        case Failure(e) => (Failure(BadMessage(e)), stream[end..])
        case Success(m) => (Success(m), stream[end..])
  }

  method ReadMessage(r: Reader) returns (result: Result<Message, ReadError>)
    modifies r
    ensures r.rest == ReadOne(old(r.rest)).1
    ensures match ReadOne(old(r.rest)).0
            case Failure(e) => result == Failure(e)
            case Success(m) => result.Success? && fresh(result.value) && result.value.Value() == m
  {
    ghost var stream := r.rest;
    var header := r.ReadFull(COMMON_HEADER_LENGTH);
    if header.None? {
      return Failure(ShortRead);
    }
    var payloadSize := 4 * WordCount(header.value) as int;
    var fullMessage := header.value;
    if payloadSize > 0 {
      var payload := r.ReadFull(payloadSize);
      if payload.None? {
        return Failure(ShortRead);
      }
      fullMessage := fullMessage + payload.value;
    }
    assert fullMessage == stream[..COMMON_HEADER_LENGTH + payloadSize];
    assert r.rest == stream[COMMON_HEADER_LENGTH + payloadSize..];
    var m := Decode(fullMessage);
    match m {
      case Failure(e) => result := Failure(BadMessage(e));
      case Success(message) => result := Success(message);
    }
  }

  // ----- framing ----------------------------------------------------------

  /** What `WriteMessage` puts on the stream: nothing when the message does not encode. */
  ghost function Written(m: Msg): seq<u8> {
    Encoding(m).GetOr([])
  }

  datatype WriteError = Unaligned | WriteFailed

  class Writer {
    var octets: seq<u8>

    constructor ()
      ensures octets == []
    {
      octets := [];
    }

    /** `io.Writer`: all of `data`, or an error after `accepted` octets when the stream breaks there. */
    method Write(data: seq<u8>, accepted: Option<nat>) returns (ok: bool)
      modifies this
      ensures ok <==> accepted.None? || accepted.value >= |data|
      ensures octets == old(octets) + if ok then data else data[..accepted.value]
    {
      ok := accepted.None? || accepted.value >= |data|;
      octets := octets + if ok then data else data[..accepted.value];
    }
  }

  method WriteMessage(w: Writer, m: Message, accepted: Option<nat>) returns (r: Result<(), WriteError>)
    modifies w, m`payloadLength
    ensures match Encoding(old(m.Value()))
            case None => r == Failure(Unaligned) && w.octets == old(w.octets)
            case Some(data) =>
              if accepted.None? || accepted.value >= |data| then
                r == Success(()) && w.octets == old(w.octets) + Written(old(m.Value()))
              else r == Failure(WriteFailed) && w.octets == old(w.octets) + data[..accepted.value]
  {
    var data := m.Encode();
    if data.None? {
      return Failure(Unaligned);
    }
    var ok := w.Write(data.value, accepted);
    r := if ok then Success(()) else Failure(WriteFailed);
  }

  /** The messages written one after another. */
  ghost function Stream(msgs: seq<Msg>): seq<u8> {
    if msgs == [] then [] else Written(msgs[0]) + Stream(msgs[1..])
  }

  /** Reading until the first failure: the messages read, and the stream when it failed. */
  function ReadAll(stream: seq<u8>): (seq<Msg>, seq<u8>)
    decreases |stream|
  {
    var (r, rest) := ReadOne(stream);
    if r.Success? && |rest| < |stream| then Consed(r.value, ReadAll(rest)) else ([], stream)
  }

  function Consed(m: Msg, r: (seq<Msg>, seq<u8>)): (seq<Msg>, seq<u8>) {
    ([m] + r.0, r.1)
  }

  /** `Encode` fills in the payload length, so that is what comes back. */
  function Counted(m: Msg): Msg {
    m.(payloadLength := PayloadWords(m.attributes))
  }

  function AllCounted(msgs: seq<Msg>): (r: seq<Msg>)
    ensures |r| == |msgs|
    ensures forall i :: 0 <= i < |msgs| ==> r[i] == Counted(msgs[i])
  {
    if msgs == [] then [] else [Counted(msgs[0])] + AllCounted(msgs[1..])
  }

  lemma ReadOneSplits(octets: seq<u8>, rest: seq<u8>)
    requires |octets| >= COMMON_HEADER_LENGTH && |octets| == COMMON_HEADER_LENGTH + 4 * GetU16(octets[2..4]) as int
    requires Decoding(octets).Success?
    ensures ReadOne(octets + rest) == (Success(Decoding(octets).value), rest)
  {
    var stream := octets + rest;
    assert stream[..COMMON_HEADER_LENGTH][2..4] == octets[2..4];
    assert stream[..|octets|] == octets && stream[|octets|..] == rest;
  }

  lemma WrittenOctets(m: Msg)
    requires WellFormed(m)
    ensures Decoding(Written(m)) == Success(Counted(m))
    ensures |Written(m)| >= COMMON_HEADER_LENGTH
    ensures |Written(m)| == COMMON_HEADER_LENGTH + 4 * GetU16(Written(m)[2..4]) as int
  {
    RoundTripIff(m);
    EncodingOf(m);
    WordsDiv(Size(m.attributes));
    HeaderParts(Counted(m), Payload(m.attributes));
  }

  /** Whatever well-formed messages are written to a stream, reading it returns exactly them, in
      order, and ends at the end of the stream. */
  lemma {:induction false} StreamRoundTrip(msgs: seq<Msg>)
    requires forall i :: 0 <= i < |msgs| ==> WellFormed(msgs[i])
    ensures ReadAll(Stream(msgs)) == (AllCounted(msgs), [])
  {
    if msgs != [] {
      WrittenOctets(msgs[0]);
      ReadOneSplits(Written(msgs[0]), Stream(msgs[1..]));
      StreamRoundTrip(msgs[1..]);
    }
  }
}
