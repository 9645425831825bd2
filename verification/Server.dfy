/**
  The proxy server's count of running transports. Accepted connections run as concurrent tasks that
  add to and subtract from one atomic 64-bit counter; the peers may send anything.
 */
module Server {
  import opened Wrappers
  import opened Octets

  /** Where the task spawned for an accepted connection is. */
  datatype Main =
    | Spawned                          // not counted yet
    | Reading                          // waiting for the first message
    | Left                             // returned before dispatch, without subtracting
    | TcpConnecting
    | TcpReplying(connected: bool)
    | TcpReturned(ok: bool)            // the TCP handler has returned
    | UdpRunning
    | UdpReturned(ok: bool)            // the UDP handler has returned
    | Returned                         // returned, leaving the subtraction to the relay task
    | Subtracted

  /** Where the task that relays from the destination to the agent is. */
  datatype Down = NotSpawned | Relaying | Ended | Done

  /** A transport's two tasks that touch the counter; each moves on its own. */
  datatype Transport = Transport(main: Main, down: Down)

  datatype First = PeerClosed | Undecodable | TcpInit | TcpNotInit | UdpData

  datatype Event =
    | Accept
    | Count(i: nat)
    | Receive(i: nat, first: First)
    | Connect(i: nat, connected: bool)
    | Reply(i: nat, sent: bool)        // when all went well, also spawns the relay tasks
    | Return(i: nat)
    | UdpEnds(i: nat, ok: bool)
    | RelayEnds(i: nat)
    | SubtractMain(i: nat)
    | SubtractDown(i: nat)

  datatype Server = Server(counter: u64, transports: seq<Transport>)

  const EMPTY: Server := Server(0, [])

  /** Atomic addition and subtraction wrap around. */
  function FetchAdd(n: u64): u64 {
    (n + 1) % U64_LIMIT
  }

  function FetchSub(n: u64): u64 {
    (n + U64_LIMIT - 1) % U64_LIMIT
  }

  function AfterFirst(first: First): Main {
    match first
    case TcpInit => TcpConnecting
    case UdpData => UdpRunning
    case _ => Left
  }

  /** What a step of transport `e.i` makes of it when the counter is not touched. */
  function Move(t: Transport, e: Event): Option<Transport> {
    match (t.main, e)
    case (Reading, Receive(_, first)) => Some(t.(main := AfterFirst(first)))
    case (TcpConnecting, Connect(_, connected)) => Some(t.(main := TcpReplying(connected)))
    case (TcpReplying(connected), Reply(_, sent)) =>
      if connected && sent then Some(Transport(TcpReturned(true), Relaying)) else Some(t.(main := TcpReturned(false)))
    case (TcpReturned(true), Return(_)) => Some(t.(main := Returned))
    case (UdpRunning, UdpEnds(_, ok)) => Some(t.(main := UdpReturned(ok)))
    case (_, RelayEnds(_)) => if t.down.Relaying? then Some(t.(down := Ended)) else None
    case _ => None
  }

  /** The main task subtracts when its handler fails, and after every UDP handler. */
  predicate MainDue(t: Transport) {
    t.main == TcpReturned(false) || t.main.UdpReturned?
  }

  /** The relay task subtracts when it has stopped forwarding. */
  predicate DownDue(t: Transport) {
    t.down.Ended?
  }

  function Step(s: Server, e: Event): Option<Server> {
    if e.Accept? then Some(s.(transports := s.transports + [Transport(Spawned, NotSpawned)])) else
    if e.i >= |s.transports| then None else
    var t := s.transports[e.i];
    if e.Count? then
      if t.main.Spawned? then Some(Server(FetchAdd(s.counter), s.transports[e.i := t.(main := Reading)])) else None
    else if e.SubtractMain? then
      if MainDue(t) then Some(Server(FetchSub(s.counter), s.transports[e.i := t.(main := Subtracted)])) else None
    else if e.SubtractDown? then
      if DownDue(t) then Some(Server(FetchSub(s.counter), s.transports[e.i := t.(down := Done)])) else None
    else
      var moved :- Move(t, e);
      Some(s.(transports := s.transports[e.i := moved]))
  }

  function Run(s: Server, events: seq<Event>): Option<Server>
    decreases |events|
  {
    if events == [] then Some(s) else
    var t :- Run(s, events[..|events| - 1]);
    Step(t, events[|events| - 1])
  }

  lemma RunSnoc(s: Server, events: seq<Event>, e: Event)
    requires Run(s, events).Some?
    ensures Run(s, events + [e]) == Step(Run(s, events).value, e)
  {
    assert (events + [e])[..|events|] == events;
  }

  // ----- counting -----

  /** Added and not subtracted by either task. */
  predicate Counted(t: Transport) {
    !t.main.Spawned? && !t.main.Subtracted? && !t.down.Done?
  }

  /**
    The relay task exists only when the handler succeeded, and then the main task does not subtract: the
    handler fails only before it spawns.
   */
  predicate OneSubtracts(t: Transport) {
    t.down.NotSpawned? || t.main == TcpReturned(true) || t.main.Returned?
  }

  function Weight(p: Transport -> bool, t: Transport): nat {
    if p(t) then 1 else 0
  }

  /** How many of `ts` satisfy `p`. */
  function Number(ts: seq<Transport>, p: Transport -> bool): nat {
    if ts == [] then 0 else Number(ts[..|ts| - 1], p) + Weight(p, ts[|ts| - 1])
  }

  lemma {:induction false} NumberSome(ts: seq<Transport>, p: Transport -> bool)
    ensures Number(ts, p) <= |ts|
    ensures Number(ts, p) > 0 <==> exists t :: t in ts && p(t)
    decreases |ts|
  {
    if ts != [] {
      NumberSome(ts[..|ts| - 1], p);
      assert ts == ts[..|ts| - 1] + [ts[|ts| - 1]];
    }
  }

  lemma NumberAppend(ts: seq<Transport>, t: Transport, p: Transport -> bool)
    ensures Number(ts + [t], p) == Number(ts, p) + Weight(p, t)
  {
    assert (ts + [t])[..|ts|] == ts;
  }

  lemma {:induction false} NumberUpdate(ts: seq<Transport>, i: nat, t: Transport, p: Transport -> bool)
    requires i < |ts|
    ensures Number(ts[i := t], p) + Weight(p, ts[i]) == Number(ts, p) + Weight(p, t)
    decreases |ts|
  {
    hide Number, Weight;
    var init, last := ts[..|ts| - 1], ts[|ts| - 1];
    assert ts == init + [last];
    NumberAppend(init, last, p);
    if i == |init| {
      assert ts[i := t] == init + [t];
      NumberAppend(init, t, p);
    } else {
      assert ts[i := t] == init[i := t] + [last];
      NumberAppend(init[i := t], last, p);
      NumberUpdate(init, i, t, p);
    }
  }

  lemma WrapAdd(n: nat)
    ensures FetchAdd(n % U64_LIMIT) == (n + 1) % U64_LIMIT
  {
    var q, r := n / U64_LIMIT, n % U64_LIMIT;
    assert n + 1 == q * U64_LIMIT + (r + 1);
  }

  lemma WrapSub(n: nat)
    requires n > 0
    ensures FetchSub(n % U64_LIMIT) == (n - 1) % U64_LIMIT
  {
    var q, r := (n - 1) / U64_LIMIT, (n - 1) % U64_LIMIT;
    WrapAdd(n - 1);
    assert n % U64_LIMIT == (r + 1) % U64_LIMIT;
  }

  lemma SubUndoesAdd(n: u64)
    ensures FetchSub(FetchAdd(n)) == n
  {
  }

  /** The counter holds the number of counted transports, as far as 64 bits can. */
  predicate Agrees(s: Server) {
    s.counter == Number(s.transports, Counted) % U64_LIMIT
  }

  predicate SubtractsIn(e: Event) {
    e.SubtractMain? || e.SubtractDown?
  }

  /** What one step does to the counter and to the one transport it concerns. */
  lemma StepShape(s: Server, e: Event)
    requires Step(s, e).Some? && !e.Accept? && e.i < |s.transports| && OneSubtracts(s.transports[e.i])
    ensures var t := Step(s, e).value;
      && t.transports == s.transports[e.i := t.transports[e.i]] && OneSubtracts(t.transports[e.i])
      && t.counter == (if e.Count? then FetchAdd(s.counter) else if SubtractsIn(e) then FetchSub(s.counter) else s.counter)
      && (e.Count? ==> !Counted(s.transports[e.i]) && Counted(t.transports[e.i]))
      && (SubtractsIn(e) ==> Counted(s.transports[e.i]) && !Counted(t.transports[e.i]))
      && (!e.Count? && !SubtractsIn(e) ==> Counted(s.transports[e.i]) == Counted(t.transports[e.i]))
  {
  }

  predicate AllOneSubtract(ts: seq<Transport>) {
    forall i :: 0 <= i < |ts| ==> OneSubtracts(ts[i])
  }

  lemma StepNumber(s: Server, e: Event)
    requires AllOneSubtract(s.transports) && Step(s, e).Some?
    ensures var n, m := Number(s.transports, Counted), Number(Step(s, e).value.transports, Counted);
      m == n + (if e.Count? then 1 else 0) - (if SubtractsIn(e) then 1 else 0)
  {
    var t := Step(s, e).value;
    if e.Accept? {
      NumberAppend(s.transports, Transport(Spawned, NotSpawned), Counted);
    } else {
      StepShape(s, e);
      hide Step, Counted, OneSubtracts, Number;
      NumberUpdate(s.transports, e.i, t.transports[e.i], Counted);
    }
  }

  lemma StepKeepsOne(s: Server, e: Event)
    requires AllOneSubtract(s.transports) && Step(s, e).Some?
    ensures AllOneSubtract(Step(s, e).value.transports)
  {
    if !e.Accept? {
      StepShape(s, e);
      hide Step, OneSubtracts;
    }
  }

  lemma StepCounter(s: Server, e: Event)
    requires Step(s, e).Some?
    ensures Step(s, e).value.counter
         == if e.Count? then FetchAdd(s.counter) else if SubtractsIn(e) then FetchSub(s.counter) else s.counter
  {
    hide FetchAdd, FetchSub;
  }

  /** Every step keeps the two facts the counter rests on; a subtraction finds its transport counted. */
  lemma StepCounts(s: Server, e: Event)
    requires AllOneSubtract(s.transports) && Agrees(s) && Step(s, e).Some?
    ensures AllOneSubtract(Step(s, e).value.transports) && Agrees(Step(s, e).value)
    ensures SubtractsIn(e) ==> Number(s.transports, Counted) > 0
  {
    hide Step, Number, AllOneSubtract, FetchAdd, FetchSub;
    StepKeepsOne(s, e);
    StepNumber(s, e);
    StepCounter(s, e);
    WrapAdd(Number(s.transports, Counted));
    if SubtractsIn(e) {
      WrapSub(Number(s.transports, Counted));
    }
  }

  lemma DueIsCounted(ts: seq<Transport>, i: nat)
    requires AllOneSubtract(ts) && i < |ts| && (MainDue(ts[i]) || DownDue(ts[i]))
    ensures Number(ts, Counted) > 0
  {
    assert ts[i] in ts && Counted(ts[i]);
    NumberSome(ts, Counted);
  }

  /**
    Under every interleaving of any number of transports and of their tasks, the counter is the number of
    transports started and not yet subtracted, and a subtraction only ever happens when there is one: the
    counter never wraps below zero.
   */
  lemma {:induction false} CounterConservation(events: seq<Event>)
    requires Run(EMPTY, events).Some?
    ensures var s := Run(EMPTY, events).value;
      && AllOneSubtract(s.transports)
      && Agrees(s)
      && (|s.transports| < U64_LIMIT ==> s.counter == Number(s.transports, Counted))
      && (forall i :: 0 <= i < |s.transports| && (MainDue(s.transports[i]) || DownDue(s.transports[i])) ==>
            Number(s.transports, Counted) > 0)
    decreases |events|
  {
    hide Step, Number, OneSubtracts;
    if events != [] {
      var n := |events| - 1;
      CounterConservation(events[..n]);
      StepCounts(Run(EMPTY, events[..n]).value, events[n]);
    } else {
      NumberOfNone(Counted);
    }
    var ts := Run(EMPTY, events).value.transports;
    NumberSome(ts, Counted);
    forall i | 0 <= i < |ts| && (MainDue(ts[i]) || DownDue(ts[i])) ensures Number(ts, Counted) > 0 {
      DueIsCounted(ts, i);
    }
  }

  lemma NumberOfNone(p: Transport -> bool)
    ensures Number([], p) == 0
  {
  }

  predicate HasLeft(t: Transport) {
    Counted(t) && t.main.Left?
  }

  predicate IsLive(t: Transport) {
    Counted(t) && !t.main.Left?
  }

  lemma {:induction false} CountedSplits(ts: seq<Transport>)
    ensures Number(ts, Counted) == Number(ts, IsLive) + Number(ts, HasLeft)
    decreases |ts|
  {
    if ts != [] {
      CountedSplits(ts[..|ts| - 1]);
    }
  }

  /**
    The counter is the number of live transports plus the number that left before dispatch: peers that
    closed at once, sent an undecodable first message, or a first TCP message that is not an Init.
    When no transport is live it is back at zero if and only if none of them did.
   */
  lemma CounterAtRest(events: seq<Event>)
    requires Run(EMPTY, events).Some? && |Run(EMPTY, events).value.transports| < U64_LIMIT
    ensures var s := Run(EMPTY, events).value;
      && s.counter == Number(s.transports, IsLive) + Number(s.transports, HasLeft)
      && ((forall t :: t in s.transports ==> !IsLive(t)) ==>
            (s.counter == 0 <==> forall t :: t in s.transports ==> !t.main.Left?))
  {
    hide Run, Step;
    CounterConservation(events);
    var ts := Run(EMPTY, events).value.transports;
    CountedSplits(ts);
    NumberSome(ts, IsLive);
    NumberSome(ts, HasLeft);
    forall t | t in ts && t.main.Left? ensures HasLeft(t) {
    }
  }

  /** A peer that connects and closes at once is never subtracted: only new connections can follow. */
  lemma EarlyCloseIsNeverSubtracted()
    ensures Run(EMPTY, [Accept, Count(0), Receive(0, PeerClosed)]) == Some(Server(1, [Transport(Left, NotSpawned)]))
    ensures forall e :: Step(Server(1, [Transport(Left, NotSpawned)]), e).Some? ==> e.Accept?
  {
    var first: seq<Event> := [];
    assert first + [Accept] == [Accept] && EMPTY.transports + [Transport(Spawned, NotSpawned)] == [Transport(Spawned, NotSpawned)];
    RunSnoc(EMPTY, first, Accept);
    Then(EMPTY, [Accept], Count(0), 0, Transport(Spawned, NotSpawned));
    Then(EMPTY, [Accept, Count(0)], Receive(0, PeerClosed), 1, Transport(Reading, NotSpawned));
    assert [Accept, Count(0)] + [Receive(0, PeerClosed)] == [Accept, Count(0), Receive(0, PeerClosed)];
    assert [Accept] + [Count(0)] == [Accept, Count(0)];
  }

  // ----- no transport subtracts twice -----

  /** How often `e` occurs in a run. */
  function Times(events: seq<Event>, e: Event): nat {
    if events == [] then 0
    else Times(events[..|events| - 1], e) + if events[|events| - 1] == e then 1 else 0
  }

  predicate Started(s: Server, i: nat) {
    i < |s.transports| && !s.transports[i].main.Spawned?
  }

  predicate MainHas(s: Server, i: nat) {
    i < |s.transports| && s.transports[i].main.Subtracted?
  }

  predicate DownHas(s: Server, i: nat) {
    i < |s.transports| && s.transports[i].down.Done?
  }

  /** Only its own addition starts a transport, only their own subtractions end its tasks, and none happens again. */
  lemma StepOnce(s: Server, e: Event, i: nat)
    requires Step(s, e).Some? && AllOneSubtract(s.transports)
    ensures var t := Step(s, e).value;
      && (e == Count(i) ==> !Started(s, i)) && (Started(t, i) <==> Started(s, i) || e == Count(i))
      && (e == SubtractMain(i) ==> !MainHas(s, i)) && (MainHas(t, i) <==> MainHas(s, i) || e == SubtractMain(i))
      && (e == SubtractDown(i) ==> !DownHas(s, i)) && (DownHas(t, i) <==> DownHas(s, i) || e == SubtractDown(i))
  {
  }

  lemma {:induction false} TimesTold(events: seq<Event>, i: nat)
    requires Run(EMPTY, events).Some?
    ensures var s := Run(EMPTY, events).value;
      && Times(events, Count(i)) == (if Started(s, i) then 1 else 0)
      && Times(events, SubtractMain(i)) == (if MainHas(s, i) then 1 else 0)
      && Times(events, SubtractDown(i)) == (if DownHas(s, i) then 1 else 0)
    decreases |events|
  {
    if events != [] {
      hide Step, Started, MainHas, DownHas;
      var n := |events| - 1;
      TimesTold(events[..n], i);
      CounterConservation(events[..n]);
      StepOnce(Run(EMPTY, events[..n]).value, events[n], i);
    }
  }

  /**
    Every transport adds at most once, and its two tasks together subtract at most once, and only after it
    was added. It is counted exactly while it has been added and not subtracted.
   */
  lemma ReleasedOnce(events: seq<Event>, i: nat)
    requires Run(EMPTY, events).Some?
    ensures Times(events, SubtractMain(i)) + Times(events, SubtractDown(i)) <= Times(events, Count(i)) <= 1
    ensures var s := Run(EMPTY, events).value;
      i < |s.transports| ==>
        (Counted(s.transports[i]) <==>
           Times(events, SubtractMain(i)) + Times(events, SubtractDown(i)) < Times(events, Count(i)))
  {
    hide Run, Times;
    TimesTold(events, i);
    CounterConservation(events);
    var ts := Run(EMPTY, events).value.transports;
    if i < |ts| {
      assert OneSubtracts(ts[i]);
    }
  }

  // ----- the tasks of one transport -----

  class TransportNumber {
    var value: u64

    constructor ()
      ensures value == 0
    {
      value := 0;
    }

    method Add()
      modifies this
      ensures value == FetchAdd(old(value))
    {
      value := (value + 1) % U64_LIMIT;
    }

    method Subtract()
      modifies this
      ensures value == FetchSub(old(value))
    {
      value := (value + U64_LIMIT - 1) % U64_LIMIT;
    }
  }

  /** The spawned task that forwards from the destination to the agent until either side ends. */
  class RelayTask {
    const number: TransportNumber

    constructor (number: TransportNumber)
      ensures this.number == number
    {
      this.number := number;
    }

    method Finish()
      modifies number
      ensures number.value == FetchSub(old(number.value))
      ensures Step(Server(old(number.value), [Transport(Returned, Ended)]), SubtractDown(0))
           == Some(Server(number.value, [Transport(Returned, Done)]))
    {
      assert forall t, u: Transport :: [t][0 := u] == [u];
      number.Subtract();
    }
  }

  /** What the network does to one transport until its main task returns. */
  datatype Script = Script(first: First, connected: bool, replySent: bool, udpOk: bool)

  /** The TCP handler spawns a relay task exactly when it succeeds, and never touches the counter. */
  method TcpHandler(number: TransportNumber, script: Script) returns (ok: bool, task: Option<RelayTask>)
    ensures ok == (script.connected && script.replySent)
    ensures ok <==> task.Some?
    ensures task.Some? ==> task.value.number == number
  {
    if !script.connected {
      // the failure reply is sent, or sending it fails; both ways the handler returns an error
      return false, None;
    }
    if !script.replySent {
      return false, None;
    }
    var relay := new RelayTask(number);
    return true, Some(relay);
  }

  predicate HandlerSucceeds(script: Script) {
    script.connected && script.replySent
  }

  /** The steps of transport 0 along which its main task runs from its first message to its return. */
  function Events(script: Script): seq<Event> {
    match script.first
    case TcpInit =>
      [Receive(0, TcpInit), Connect(0, script.connected), Reply(0, script.replySent)]
      + [if HandlerSucceeds(script) then Return(0) else SubtractMain(0)]
    case UdpData => [Receive(0, UdpData), UdpEnds(0, script.udpOk)] + [SubtractMain(0)]
    case first => [Receive(0, first)]
  }

  /** Where the two tasks are when the main task has returned. */
  function AtReturn(script: Script): Transport {
    match script.first
    case TcpInit => if HandlerSucceeds(script) then Transport(Returned, Relaying) else Transport(Subtracted, NotSpawned)
    case UdpData => Transport(Subtracted, NotSpawned)
    case _ => Transport(Left, NotSpawned)
  }

  /** One more step of a server with one transport. */
  lemma Then(s: Server, events: seq<Event>, e: Event, counter: u64, t: Transport)
    requires Run(s, events) == Some(Server(counter, [t])) && !e.Accept? && e.i == 0
    requires Step(Server(counter, [t]), e).Some?
    ensures Run(s, events + [e]) == Step(Server(counter, [t]), e)
    ensures |Run(s, events + [e]).value.transports| == 1
    ensures Step(Server(counter, [t]), e).value.transports == [Step(Server(counter, [t]), e).value.transports[0]]
  {
    RunSnoc(s, events, e);
  }

  /** The steps of the main task lead to where it returns, subtracting exactly if it ends in `Subtracted`. */
  lemma EventsRun(counter: u64, script: Script)
    ensures AtReturn(script) ==
      if script.first.PeerClosed? || script.first.Undecodable? || script.first.TcpNotInit? then Transport(Left, NotSpawned)
      else if script.first.TcpInit? && script.connected && script.replySent then Transport(Returned, Relaying)
      else Transport(Subtracted, NotSpawned)
    ensures Run(Server(counter, [Transport(Reading, NotSpawned)]), Events(script))
         == Some(Server(if AtReturn(script).main.Subtracted? then FetchSub(counter) else counter, [AtReturn(script)]))
  {
    var s, none: seq<Event>, receive := Server(counter, [Transport(Reading, NotSpawned)]), [], Receive(0, script.first);
    assert none + [receive] == [receive];
    hide Run;
    NoEvents(s);
    Then(s, none, receive, counter, Transport(Reading, NotSpawned));
    match script.first
    case TcpInit => TcpEventsRun(counter, script);
    case UdpData =>
      var udpEnds := UdpEnds(0, script.udpOk);
      Then(s, [receive], udpEnds, counter, Transport(UdpRunning, NotSpawned));
      assert [receive] + [udpEnds] == [receive, udpEnds];
      Then(s, [receive, udpEnds], SubtractMain(0), counter, Transport(UdpReturned(script.udpOk), NotSpawned));
    case _ =>
  }

  lemma TcpEventsRun(counter: u64, script: Script)
    requires script.first.TcpInit?
    requires Run(Server(counter, [Transport(Reading, NotSpawned)]), [Receive(0, TcpInit)])
          == Some(Server(counter, [Transport(TcpConnecting, NotSpawned)]))
    ensures Run(Server(counter, [Transport(Reading, NotSpawned)]), Events(script))
         == Some(Server(if AtReturn(script).main.Subtracted? then FetchSub(counter) else counter, [AtReturn(script)]))
  {
    hide Run;
    var s, receive := Server(counter, [Transport(Reading, NotSpawned)]), Receive(0, script.first);
    var connect, reply := Connect(0, script.connected), Reply(0, script.replySent);
    Then(s, [receive], connect, counter, Transport(TcpConnecting, NotSpawned));
    assert [receive] + [connect] == [receive, connect];
    Then(s, [receive, connect], reply, counter, Transport(TcpReplying(script.connected), NotSpawned));
    assert [receive, connect] + [reply] == [receive, connect, reply];
    if HandlerSucceeds(script) {
      Then(s, [receive, connect, reply], Return(0), counter, Transport(TcpReturned(true), Relaying));
    } else {
      Then(s, [receive, connect, reply], SubtractMain(0), counter, Transport(TcpReturned(false), NotSpawned));
    }
  }

  lemma NoEvents(s: Server)
    ensures Run(s, []) == Some(s)
  {
  }

  /** `Transport::exec`: what it does to the counter, and whether a relay task is left, is what the steps say. */
  method Exec(number: TransportNumber, script: Script) returns (ok: bool, task: Option<RelayTask>)
    modifies number
    ensures Run(Server(old(number.value), [Transport(Reading, NotSpawned)]), Events(script))
         == Some(Server(number.value, [AtReturn(script)]))
    ensures ok <==> !(script.first.Undecodable? || script.first.TcpNotInit? || (script.first.UdpData? && !script.udpOk))
    ensures task.Some? <==> AtReturn(script).down.Relaying?
    ensures task.Some? ==> task.value.number == number
  {
    EventsRun(number.value, script);
    hide Run;
    match script.first {
      case PeerClosed => return true, None;
      case Undecodable => return false, None;
      case TcpNotInit => return false, None;
      case TcpInit =>
        var handled;
        handled, task := TcpHandler(number, script);
        if !handled {
          number.Subtract();
        }
        return true, task;
      case UdpData =>
        if !script.udpOk {
          number.Subtract();
          return false, None;
        }
        number.Subtract();
        return true, None;
    }
  }

  /** The whole life of a transport: it leaves the counter as it found it, unless it left before dispatch. */
  method Serve(number: TransportNumber, script: Script)
    modifies number
    ensures number.value ==
      if script.first.PeerClosed? || script.first.Undecodable? || script.first.TcpNotInit?
      then (old(number.value) + 1) % 0x1_0000_0000_0000_0000 else old(number.value)
  {
    number.Add();
    EventsRun(number.value, script);
    SubUndoesAdd(old(number.value));
    assert FetchAdd(old(number.value)) == (old(number.value) + 1) % 0x1_0000_0000_0000_0000;
    hide Run, Events, FetchAdd, FetchSub;
    var _, task := Exec(number, script);
    if task.Some? {
      task.value.Finish();
    }
  }
}
