/** The read loop of the UDP listener: datagrams are decoded and handled one at a time, in order. */
module UdpRuns {
  import opened Octets
  import opened Messages
  import opened Codec
  import opened FloorServer
  import opened ServerSafety
  import opened UdpServer
  import UdpClient

  /** The octets of a datagram, and what `OnFloorRequest` would answer. */
  datatype Arrival = Arrival(addr: Addr, octets: seq<u8>, grant: bool)

  lemma {:induction false} RunSnoc(s: State, inputs: seq<Input>, last: Input)
    ensures Run(s, inputs + [last]) == Step(Run(s, inputs), last)
    decreases inputs
  {
    hide Step;
    if inputs == [] {
      assert [last][1..] == [] && [] + [last] == [last];
    } else {
      assert (inputs + [last])[1..] == inputs[1..] + [last];
      RunSnoc(Step(s, inputs[0]), inputs[1..], last);
    }
  }

  /** Whether the server gets the datagram: it decodes and no client is toward its address. */
  predicate Serves(clients: set<Addr>, a: Arrival) {
    a.addr !in clients && Decoding(a.octets).Success?
  }

  predicate IsInput(input: Input, a: Arrival) {
    && input.Datagram? && input.addr == a.addr && input.grant == a.grant
    && Decoding(a.octets).Success? && input.msg == Decoding(a.octets).value
  }

  /** The inputs are the datagrams the server gets, in order. */
  predicate Follows(inputs: seq<Input>, clients: set<Addr>, arrivals: seq<Arrival>) {
    if arrivals == [] then inputs == []
    else
      var last, before := arrivals[|arrivals| - 1], arrivals[..|arrivals| - 1];
      if !Serves(clients, last) then Follows(inputs, clients, before)
      else inputs != [] && IsInput(inputs[|inputs| - 1], last) && Follows(inputs[..|inputs| - 1], clients, before)
  }

  /** The datagrams from an address, in order. */
  function From(a: Addr, arrivals: seq<Arrival>): seq<Msg> {
    if arrivals == [] then []
    else
      var last := arrivals[|arrivals| - 1];
      From(a, arrivals[..|arrivals| - 1])
      + (if last.addr == a && Decoding(last.octets).Success? then [Decoding(last.octets).value] else [])
  }

  predicate FromUsers(clients: set<Addr>, arrivals: seq<Arrival>) {
    forall i :: 0 <= i < |arrivals| && Serves(clients, arrivals[i]) ==> Decoding(arrivals[i].octets).value.userID != 0
  }

  lemma {:induction false} FollowsUsers(inputs: seq<Input>, clients: set<Addr>, arrivals: seq<Arrival>)
    requires Follows(inputs, clients, arrivals) && FromUsers(clients, arrivals)
    ensures NonzeroUsers(inputs)
    decreases |arrivals|
  {
    hide Decoding;
    if arrivals != [] {
      var last, before := arrivals[|arrivals| - 1], arrivals[..|arrivals| - 1];
      if !Serves(clients, last) {
        FollowsUsers(inputs, clients, before);
      } else {
        FollowsUsers(inputs[..|inputs| - 1], clients, before);
        assert forall i :: 0 <= i < |inputs| - 1 ==> inputs[i] == inputs[..|inputs| - 1][i];
      }
    }
  }

  lemma FollowsMore(inputs: seq<Input>, clients: set<Addr>, arrivals: seq<Arrival>, input: Input, a: Arrival)
    requires Follows(inputs, clients, arrivals)
    ensures !Serves(clients, a) ==> Follows(inputs, clients, arrivals + [a])
    ensures Serves(clients, a) && IsInput(input, a) ==> Follows(inputs + [input], clients, arrivals + [a])
  {
    hide Decoding;
    assert (arrivals + [a])[..|arrivals + [a]| - 1] == arrivals;
    assert (inputs + [input])[..|inputs + [input]| - 1] == inputs;
  }

  lemma {:induction false} HandledSnoc(c: UdpClient.Client, ms: seq<Msg>, m: Msg)
    ensures UdpClient.AllHandled(c, ms + [m]) == UdpClient.Handled(UdpClient.AllHandled(c, ms), m)
    decreases ms
  {
    hide UdpClient.Handled;
    if ms == [] {
      assert [m][1..] == [] && [] + [m] == [m];
    } else {
      assert (ms + [m])[1..] == ms[1..] + [m];
      HandledSnoc(UdpClient.Handled(c, ms[0]), ms[1..], m);
    }
  }

  /** What one more datagram does to the client toward `at`. */
  lemma FromMore(c: UdpClient.Client, at: Addr, arrivals: seq<Arrival>, a: Arrival)
    ensures UdpClient.AllHandled(c, From(at, arrivals + [a]))
         == if a.addr == at && Decoding(a.octets).Success?
            then UdpClient.Handled(UdpClient.AllHandled(c, From(at, arrivals)), Decoding(a.octets).value)
            else UdpClient.AllHandled(c, From(at, arrivals))
  {
    hide Decoding, UdpClient.Handled, UdpClient.AllHandled;
    assert (arrivals + [a])[..|arrivals + [a]| - 1] == arrivals;
    assert From(at, arrivals) + [] == From(at, arrivals);
    if a.addr == at && Decoding(a.octets).Success? {
      HandledSnoc(c, From(at, arrivals), Decoding(a.octets).value);
    }
  }

  lemma StaysSafe(s: State, inputs: seq<Input>, clients: set<Addr>, arrivals: seq<Arrival>)
    requires Follows(inputs, clients, arrivals)
    ensures Safe(s) && FromUsers(clients, arrivals) ==> Safe(Run(s, inputs))
  {
    hide Follows, Run, Safe, FromUsers;
    if Safe(s) && FromUsers(clients, arrivals) {
      FollowsUsers(inputs, clients, arrivals);
      TraceSafety(s, inputs);
    }
  }

  /** The clients after a datagram. */
  function Given(cs: map<Addr, UdpClient.Client>, a: Arrival): map<Addr, UdpClient.Client> {
    if Decoding(a.octets).Success? then Handing(cs, a.addr, Decoding(a.octets).value) else cs
  }

  /** Every client has handled exactly the datagrams from its address, in order. */
  function AllGiven(cs: map<Addr, UdpClient.Client>, arrivals: seq<Arrival>): map<Addr, UdpClient.Client> {
    map at | at in cs :: UdpClient.AllHandled(cs[at], From(at, arrivals))
  }

  lemma GivenMore(cs: map<Addr, UdpClient.Client>, arrivals: seq<Arrival>, a: Arrival)
    ensures AllGiven(cs, arrivals + [a]) == Given(AllGiven(cs, arrivals), a)
  {
    hide Decoding, From, UdpClient.Handled, UdpClient.AllHandled;
    forall at | at in cs ensures AllGiven(cs, arrivals + [a])[at] == Given(AllGiven(cs, arrivals), a)[at] {
      FromMore(cs[at], at, arrivals, a);
    }
  }

  /** One datagram: dropped if it does not decode. */
  method Receive(server: Server, a: Arrival) returns (ghost input: Input)
    requires server.Valid() && server.Apart()
    modifies server`floors, server`sessions, server`nextTxID, server`ticks, server`callbacks, server`outbox
    modifies server.floors.Values, server.sessions.Values, server.udpClients.Values
    ensures server.Valid()
    ensures fresh(server.floors.Values - old(server.floors.Values))
    ensures fresh(server.sessions.Values - old(server.sessions.Values))
    ensures if Serves(server.udpClients.Keys, a) then
              IsInput(input, a) && server.View() == Step(old(server.View()), input)
            else server.View() == old(server.View())
    ensures server.Clients() == Given(old(server.Clients()), a)
  {
    hide StateAfter, Legal, Sending, Decoding, Handing, Server.View, Server.Clients;
    input := CreateFloor(0);
    var decoded := Decode(a.octets);
    if decoded.Success? {
      var msg := decoded.value.Value();
      ghost var ch := server.HandleUDPMessage(a.addr, msg, a.grant);
      input := Datagram(a.addr, msg, a.grant, ch);
    }
  }

  /** From octets to callbacks: the server object runs as the transition system does on the datagrams
      it gets, and so keeps every floor and its callbacks consistent when none of them comes from user 0;
      and every client on the same socket gets exactly the datagrams from its address, in order. */
  method ReadLoop(server: Server, arrivals: seq<Arrival>) returns (ghost inputs: seq<Input>)
    requires server.Valid() && server.Apart()
    modifies server`floors, server`sessions, server`nextTxID, server`ticks, server`callbacks, server`outbox
    modifies server.floors.Values, server.sessions.Values, server.udpClients.Values
    ensures server.Valid() && Follows(inputs, server.udpClients.Keys, arrivals)
    ensures server.View() == Run(old(server.View()), inputs)
    ensures Safe(old(server.View())) && FromUsers(server.udpClients.Keys, arrivals) ==> Safe(server.View())
    ensures server.Clients() == AllGiven(old(server.Clients()), arrivals)
  {
    hide Run, Step, Safe, Decoding, Follows, IsInput, FromUsers, Given, AllGiven, Server.View, Server.Clients;
    ghost var s, clients, cs := server.View(), server.udpClients.Keys, server.Clients();
    inputs := [];
    Nothing(s, clients, cs);
    var i := 0;
    while i < |arrivals|
      invariant 0 <= i <= |arrivals| && server.Valid() && Follows(inputs, clients, arrivals[..i])
      invariant fresh(server.floors.Values - old(server.floors.Values))
      invariant fresh(server.sessions.Values - old(server.sessions.Values))
      invariant server.View() == Run(s, inputs) && server.Clients() == AllGiven(cs, arrivals[..i])
    {
      assert arrivals[..i + 1] == arrivals[..i] + [arrivals[i]];
      ghost var input := Receive(server, arrivals[i]);
      GivenMore(cs, arrivals[..i], arrivals[i]);
      FollowsMore(inputs, clients, arrivals[..i], input, arrivals[i]);
      if Serves(clients, arrivals[i]) {
        RunSnoc(s, inputs, input);
        inputs := inputs + [input];
      }
      i := i + 1;
    }
    assert arrivals[..i] == arrivals;
    StaysSafe(s, inputs, clients, arrivals);
  }

  lemma Nothing(s: State, clients: set<Addr>, cs: map<Addr, UdpClient.Client>)
    ensures Run(s, []) == s && Follows([], clients, []) && AllGiven(cs, []) == cs
  {
  }
}
