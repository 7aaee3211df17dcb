/** The loop of one device and its clients, as interleaved steps: polls, reconnects with backoff,
    and the bounded queue of writes with their replies. */
module DeviceTask {
  import opened Common

  const QUEUE_CAPACITY := 16

  datatype WriteValue = HoldingValue(word: u16) | CoilValue(on: bool)

  datatype Request = Request(sensorId: string, value: WriteValue)

  /** How a served write ended: accepted by the source, failed there, or refused without one. */
  datatype Outcome = Accepted | Failed | Refused

  datatype WriteResult = WriteOk | BrokerClosed | NoReply | AcquisitionError

  /** A client of the write broker: waiting for room in the queue, waiting for the reply to the
      `index`-th request ever sent, or done. */
  datatype Client =
    | Sending(request: Request)
    | Waiting(request: Request, index: nat)
    | Done(request: Request, ticket: Option<nat>, result: WriteResult)

  datatype Phase = Selecting | Connecting | Reading | Forwarding | Serving(index: nat) | BackingOff | Exited

  datatype Event = ConnectFailed | Connected | PollFailed | PollOk | Served(index: nat, outcome: Outcome)

  /** `sent` lists all requests ever queued, `replies` all replies ever given, `written` all writes
      the source accepted and `events` what happened to the device, each in order of time. */
  datatype State = State(
    phase: Phase,
    connected: bool,
    failures: nat,
    queue: seq<nat>,
    clients: map<nat, Client>,
    sent: seq<Request>,
    replies: seq<(nat, Outcome)>,
    written: seq<Request>,
    events: seq<Event>)

  datatype Step =
    | Send(c: nat)
    | SendFails(c: nat)
    | Receive(c: nat)
    | Tick
    | Connect(ok: bool)
    | ReadSamples(ok: bool)
    | Forward(consumerGone: bool)
    | Dequeue
    | Serve(ok: bool)
    | BackoffOver
    | Exit

  function ReplyOf(replies: seq<(nat, Outcome)>, index: nat): Option<Outcome> {
    if replies == [] then None
    else if replies[0].0 == index then Some(replies[0].1)
    else ReplyOf(replies[1..], index)
  }

  predicate Enabled(s: State, step: Step) {
    match step
    case Send(c) => c in s.clients && s.clients[c].Sending? && !s.phase.Exited? && |s.queue| < QUEUE_CAPACITY
    case SendFails(c) => c in s.clients && s.clients[c].Sending? && s.phase.Exited?
    case Receive(c) =>
      c in s.clients && s.clients[c].Waiting? && (ReplyOf(s.replies, s.clients[c].index).Some? || s.phase.Exited?)
    case Tick => s.phase.Selecting?
    case Connect(_) => s.phase.Connecting?
    case ReadSamples(_) => s.phase.Reading?
    case Forward(_) => s.phase.Forwarding?
    case Dequeue => s.phase.Selecting? && s.queue != []
    case Serve(_) => s.phase.Serving? && s.phase.index < |s.sent|
    case BackoffOver => s.phase.BackingOff?
    case Exit => s.phase.Selecting? || s.phase.BackingOff?
  }

  /** The receiving end goes away, and with it whatever is still queued. */
  function Stop(s: State): State {
    s.(phase := Exited, queue := [])
  }

  function Do(s: State, step: Step): State
    requires Enabled(s, step)
  {
    match step
    case Send(c) =>
      var r := s.clients[c].request;
      s.(clients := s.clients[c := Waiting(r, |s.sent|)], queue := s.queue + [|s.sent|], sent := s.sent + [r])
    case SendFails(c) =>
      s.(clients := s.clients[c := Done(s.clients[c].request, None, BrokerClosed)])
    case Receive(c) =>
      var w := s.clients[c];
      var result := match ReplyOf(s.replies, w.index)
                    case Some(Accepted) => WriteOk
                    case Some(_) => AcquisitionError
                    case None => NoReply;
      s.(clients := s.clients[c := Done(w.request, Some(w.index), result)])
    case Tick =>
      s.(phase := if s.connected then Reading else Connecting)
    case Connect(ok) =>
      if ok then s.(phase := Reading, connected := true, failures := 0, events := s.events + [Connected])
      else s.(phase := BackingOff, failures := s.failures + 1, events := s.events + [ConnectFailed])
    case ReadSamples(ok) =>
      if ok then s.(phase := Forwarding, failures := 0, events := s.events + [PollOk])
      else s.(phase := BackingOff, connected := false, failures := s.failures + 1, events := s.events + [PollFailed])
    case Forward(consumerGone) =>
      if consumerGone then Stop(s) else s.(phase := Selecting)
    case Dequeue =>
      s.(phase := Serving(s.queue[0]), queue := s.queue[1..])
    case Serve(ok) =>
      var i := s.phase.index;
      var outcome := if !s.connected then Refused else if ok then Accepted else Failed;
      s.(phase := Selecting,
         replies := s.replies + [(i, outcome)],
         written := if outcome == Accepted then s.written + [s.sent[i]] else s.written,
         events := s.events + [Served(i, outcome)])
    case BackoffOver => s.(phase := Selecting)
    case Exit => Stop(s)
  }

  // ----- What the event history says -----

  /** Whether there is a source after these events. */
  function Live(events: seq<Event>): bool {
    if events == [] then false
    else
      match events[|events| - 1]
      case Connected | PollOk => true
      case ConnectFailed | PollFailed => false
      case Served(_, _) => Live(events[..|events| - 1])
  }

  /** The failures since the last connect or good poll. */
  function Streak(events: seq<Event>): nat {
    if events == [] then 0
    else
      match events[|events| - 1]
      case Connected | PollOk => 0
      case ConnectFailed | PollFailed => Streak(events[..|events| - 1]) + 1
      case Served(_, _) => Streak(events[..|events| - 1])
  }

  predicate Good(e: Event) {
    e == Connected || e == PollOk
  }

  /** There is a source exactly if only writes were served since some connect or good poll. */
  lemma {:induction false} LiveIff(events: seq<Event>)
    ensures Live(events) <==>
            exists i :: 0 <= i < |events| && Good(events[i]) && forall j :: i < j < |events| ==> events[j].Served?
  {
    if events != [] && events[|events| - 1].Served? {
      LiveIff(events[..|events| - 1]);
    }
  }

  /** The streak is the number of failed connects and polls after the last connect or good poll. */
  lemma {:induction false} StreakCounts(p: seq<Event>, q: seq<Event>)
    requires p == [] || Good(p[|p| - 1])
    requires forall e :: e in q ==> !Good(e)
    ensures Streak(p + q) == multiset(q)[ConnectFailed] + multiset(q)[PollFailed]
  {
    if q == [] {
      assert p + q == p;
    } else {
      var front, last := q[..|q| - 1], q[|q| - 1];
      StreakCounts(p, front);
      assert q == front + [last] && (p + q)[..|p + q| - 1] == p + front;
      assert multiset(q) == multiset(front) + multiset{last};
      assert last in q;
    }
  }

  /** The requests among `sent` whose reply says they were accepted, in the order of replies. */
  function AcceptedOf(sent: seq<Request>, replies: seq<(nat, Outcome)>): seq<Request> {
    if replies == [] then []
    else
      var (i, outcome), before := replies[|replies| - 1], AcceptedOf(sent, replies[..|replies| - 1]);
      if outcome == Accepted && i < |sent| then before + [sent[i]] else before
  }

  // ----- The invariant -----

  ghost predicate QueueOk(s: State) {
    var next := |s.replies| + if s.phase.Serving? then 1 else 0;
    && |s.queue| <= QUEUE_CAPACITY
    && next <= |s.sent|
    && (forall j :: 0 <= j < |s.replies| ==> s.replies[j].0 == j)
    && (s.phase.Serving? ==> s.phase.index == |s.replies|)
    && (!s.phase.Exited? ==> |s.queue| == |s.sent| - next)
    && (s.phase.Exited? ==> s.queue == [])
    && (forall j :: 0 <= j < |s.queue| ==> s.queue[j] == next + j)
  }

  ghost predicate DeviceOk(s: State) {
    && s.written == AcceptedOf(s.sent, s.replies)
    && s.failures == Streak(s.events)
    && s.connected == Live(s.events)
    && (s.phase.Connecting? ==> !s.connected)
    && (s.phase.Reading? || s.phase.Forwarding? ==> s.connected)
    && (s.phase.BackingOff? ==> !s.connected && s.failures >= 1)
    && (forall p, i, outcome :: 0 <= p < |s.events| && s.events[p] == Served(i, outcome) ==>
                                  (outcome == Refused <==> !Live(s.events[..p])))
  }

  ghost predicate ClientOk(s: State, c: nat)
    requires c in s.clients
  {
    match s.clients[c]
    case Sending(_) => true
    case Waiting(r, i) => i < |s.sent| && s.sent[i] == r
    case Done(r, index, result) =>
      && (index.None? <==> result == BrokerClosed)
      && (index.None? ==> s.phase.Exited?)
      && (index.Some? ==>
            && index.value < |s.sent| && s.sent[index.value] == r
            && (result == WriteOk <==> index.value < |s.replies| && s.replies[index.value].1 == Accepted)
            && (result == NoReply <==> index.value >= |s.replies|)
            && (result == NoReply ==> s.phase.Exited?))
  }

  ghost predicate Inv(s: State) {
    QueueOk(s) && DeviceOk(s) && forall c :: c in s.clients ==> ClientOk(s, c)
  }

  ghost predicate Init(s: State) {
    && s.phase == Selecting && !s.connected && s.failures == 0
    && s.queue == [] && s.sent == [] && s.replies == [] && s.written == [] && s.events == []
    && forall c :: c in s.clients ==> s.clients[c].Sending?
  }

  lemma {:induction false} InitInv(s: State)
    requires Init(s)
    ensures Inv(s)
  {
  }

  /** Replies are numbered in order, so the one of a request is found at its own place. */
  lemma {:induction false} ReplyIsAtIndex(replies: seq<(nat, Outcome)>, from: nat, index: nat)
    requires from <= |replies| && forall j :: 0 <= j < |replies| ==> replies[j].0 == j
    ensures from <= index ==>
              ReplyOf(replies[from..], index) == if index < |replies| then Some(replies[index].1) else None
    decreases |replies| - from
  {
    if from < |replies| {
      assert replies[from..][1..] == replies[from + 1..];
      ReplyIsAtIndex(replies, from + 1, index);
    }
  }

  lemma {:induction false} AcceptedIgnoresLater(sent: seq<Request>, r: Request, replies: seq<(nat, Outcome)>)
    requires forall j :: 0 <= j < |replies| ==> replies[j].0 < |sent|
    ensures AcceptedOf(sent + [r], replies) == AcceptedOf(sent, replies)
  {
    if replies != [] {
      AcceptedIgnoresLater(sent, r, replies[..|replies| - 1]);
    }
  }

  lemma {:induction false} SendInv(s: State, c: nat)
    requires Inv(s) && Enabled(s, Send(c))
    ensures Inv(Do(s, Send(c)))
  {
    var t := Do(s, Send(c));
    AcceptedIgnoresLater(s.sent, s.clients[c].request, s.replies);
    forall d | d in t.clients ensures ClientOk(t, d) {
      assert ClientOk(s, d);
    }
  }

  lemma {:induction false} ReceiveInv(s: State, c: nat)
    requires Inv(s) && Enabled(s, Receive(c))
    ensures Inv(Do(s, Receive(c)))
  {
    var t := Do(s, Receive(c));
    ReplyIsAtIndex(s.replies, 0, s.clients[c].index);
    assert s.replies[0..] == s.replies;
    forall d | d in t.clients ensures ClientOk(t, d) {
      assert ClientOk(s, d);
    }
  }

  lemma {:induction false} ServeKeepsQueue(s: State, ok: bool)
    requires QueueOk(s) && Enabled(s, Serve(ok))
    ensures QueueOk(Do(s, Serve(ok)))
  {
  }

  lemma {:induction false} ServeKeepsDevice(s: State, ok: bool)
    requires QueueOk(s) && DeviceOk(s) && Enabled(s, Serve(ok))
    ensures DeviceOk(Do(s, Serve(ok)))
  {
    var t := Do(s, Serve(ok));
    assert t.replies[..|s.replies|] == s.replies;
    assert t.events[..|s.events|] == s.events;
    forall p | 0 <= p < |s.events| ensures t.events[..p] == s.events[..p] {
    }
  }

  lemma {:induction false} ServeInv(s: State, ok: bool)
    requires Inv(s) && Enabled(s, Serve(ok))
    ensures Inv(Do(s, Serve(ok)))
  {
    var t := Do(s, Serve(ok));
    ServeKeepsQueue(s, ok);
    ServeKeepsDevice(s, ok);
    forall d | d in t.clients ensures ClientOk(t, d) {
      assert ClientOk(s, d);
    }
  }

  lemma {:induction false} PollInv(s: State, step: Step)
    requires Inv(s) && Enabled(s, step) && (step.Connect? || step.ReadSamples?)
    ensures Inv(Do(s, step))
  {
    var t := Do(s, step);
    assert t.events[..|s.events|] == s.events;
    forall p | 0 <= p < |s.events| ensures t.events[..p] == s.events[..p] {
    }
    forall d | d in t.clients ensures ClientOk(t, d) {
      assert ClientOk(s, d);
    }
  }

  lemma {:induction false} ControlInv(s: State, step: Step)
    requires Inv(s) && Enabled(s, step)
    requires step.SendFails? || step.Tick? || step.Forward? || step.Dequeue? || step.BackoffOver? || step.Exit?
    ensures Inv(Do(s, step))
  {
    var t := Do(s, step);
    forall d | d in t.clients ensures ClientOk(t, d) {
      assert ClientOk(s, d);
    }
  }

  lemma {:induction false} StepInv(s: State, step: Step)
    requires Inv(s) && Enabled(s, step)
    ensures Inv(Do(s, step))
  {
    match step
    case Send(c) => SendInv(s, c);
    case Receive(c) => ReceiveInv(s, c);
    case Serve(ok) => ServeInv(s, ok);
    case Connect(_) => PollInv(s, step);
    case ReadSamples(_) => PollInv(s, step);
    case _ => ControlInv(s, step);
  }

  // ----- Runs -----

  function After(init: State, steps: seq<Step>): Option<State> {
    if steps == [] then Some(init)
    else
      match After(init, steps[..|steps| - 1])
      case None => None
      case Some(s) => if Enabled(s, steps[|steps| - 1]) then Some(Do(s, steps[|steps| - 1])) else None
  }

  lemma {:induction false} ReachableInv(init: State, steps: seq<Step>)
    requires Init(init) && After(init, steps).Some?
    ensures Inv(After(init, steps).value)
  {
    if steps == [] {
      InitInv(init);
    } else {
      var front := steps[..|steps| - 1];
      ReachableInv(init, front);
      StepInv(After(init, front).value, steps[|steps| - 1]);
    }
  }

  /** In every interleaving: the queue stays within its capacity, and the replies answer the
      requests one by one in the order in which they were sent. */
  lemma {:induction false} OneReplyEachInSendOrder(init: State, steps: seq<Step>)
    requires Init(init) && After(init, steps).Some?
    ensures var s := After(init, steps).value;
            && |s.queue| <= QUEUE_CAPACITY
            && |s.replies| <= |s.sent|
            && (forall j :: 0 <= j < |s.replies| ==> s.replies[j].0 == j)
            && (s.phase.Selecting? ==> |s.sent| == |s.replies| + |s.queue|)
  {
    ReachableInv(init, steps);
  }

  /** The places among `sent` of the requests that were accepted, in the order of replies. */
  function AcceptedPlaces(replies: seq<(nat, Outcome)>): seq<nat> {
    if replies == [] then []
    else
      var (i, outcome), before := replies[|replies| - 1], AcceptedPlaces(replies[..|replies| - 1]);
      if outcome == Accepted then before + [i] else before
  }

  ghost predicate StrictlyIncreasing(places: seq<nat>) {
    forall a, b :: 0 <= a < b < |places| ==> places[a] < places[b]
  }

  ghost predicate InOrder(replies: seq<(nat, Outcome)>) {
    forall j :: 0 <= j < |replies| ==> replies[j].0 == j
  }

  /** Place `i` is that of an accepted request. */
  ghost predicate IsAccepted(replies: seq<(nat, Outcome)>, i: nat) {
    i < |replies| && replies[i] == (i, Accepted)
  }

  lemma {:induction false} PlacesAreAccepted(replies: seq<(nat, Outcome)>)
    requires InOrder(replies)
    ensures forall i: nat :: i in AcceptedPlaces(replies) <==> IsAccepted(replies, i)
  {
    if replies != [] {
      var n := |replies| - 1;
      PlacesAreAccepted(replies[..n]);
      forall i: nat ensures i in AcceptedPlaces(replies) <==> IsAccepted(replies, i) {
        assert i != n ==> (IsAccepted(replies[..n], i) <==> IsAccepted(replies, i));
      }
    }
  }

  lemma {:induction false} PlacesIncrease(replies: seq<(nat, Outcome)>)
    requires InOrder(replies)
    ensures StrictlyIncreasing(AcceptedPlaces(replies))
  {
    if replies != [] {
      var before := AcceptedPlaces(replies[..|replies| - 1]);
      PlacesIncrease(replies[..|replies| - 1]);
      PlacesAreAccepted(replies[..|replies| - 1]);
      forall a | 0 <= a < |before| ensures before[a] < |replies| - 1 {
        assert before[a] in before;
        assert IsAccepted(replies[..|replies| - 1], before[a]);
      }
    }
  }

  lemma {:induction false} AcceptedAtPlaces(sent: seq<Request>, replies: seq<(nat, Outcome)>)
    requires InOrder(replies) && |replies| <= |sent|
    ensures var places, accepted := AcceptedPlaces(replies), AcceptedOf(sent, replies);
            && |accepted| == |places|
            && forall a :: 0 <= a < |places| ==> places[a] < |sent| && accepted[a] == sent[places[a]]
  {
    if replies != [] {
      AcceptedAtPlaces(sent, replies[..|replies| - 1]);
    }
  }

  /** The device was written exactly with the accepted requests, in the order in which they were
      sent: with those at strictly increasing places among all requests ever sent. */
  lemma {:induction false} WrittenInSendOrder(init: State, steps: seq<Step>) returns (places: seq<nat>)
    requires Init(init) && After(init, steps).Some?
    ensures var s := After(init, steps).value;
            && s.written == AcceptedOf(s.sent, s.replies)
            && StrictlyIncreasing(places)
            && |s.written| == |places|
            && (forall a :: 0 <= a < |places| ==> places[a] < |s.sent| && s.written[a] == s.sent[places[a]])
            && (forall i: nat :: i in places <==> IsAccepted(s.replies, i))
  {
    ReachableInv(init, steps);
    var s := After(init, steps).value;
    places := AcceptedPlaces(s.replies);
    PlacesAreAccepted(s.replies);
    PlacesIncrease(s.replies);
    AcceptedAtPlaces(s.sent, s.replies);
  }

  lemma {:induction false} AcceptedIsWritten(sent: seq<Request>, replies: seq<(nat, Outcome)>, j: nat)
    requires j < |replies| && replies[j].1 == Accepted && replies[j].0 < |sent|
    ensures sent[replies[j].0] in AcceptedOf(sent, replies)
  {
    if j < |replies| - 1 {
      AcceptedIsWritten(sent, replies[..|replies| - 1], j);
    }
  }

  /** What a client is told is what happened: success only if the source accepted its value for
      its sensor, no reply only if the device loop ended before serving it, and a closed broker only
      after it ended. */
  lemma {:induction false} ClientResultIsTrue(init: State, steps: seq<Step>, c: nat)
    requires Init(init) && After(init, steps).Some?
    requires c in After(init, steps).value.clients && After(init, steps).value.clients[c].Done?
    ensures var s := After(init, steps).value;
            var d := s.clients[c];
            match d.result
            case WriteOk =>
              && d.ticket.Some? && IsAccepted(s.replies, d.ticket.value)
              && d.ticket.value < |s.sent| && s.sent[d.ticket.value] == d.request && d.request in s.written
            case AcquisitionError =>
              d.ticket.Some? && d.ticket.value < |s.replies| && s.replies[d.ticket.value].1 != Accepted
            case NoReply => s.phase.Exited? && d.ticket.Some? && d.ticket.value >= |s.replies|
            case BrokerClosed => s.phase.Exited? && d.ticket.None?
  {
    ReachableInv(init, steps);
    var s := After(init, steps).value;
    assert ClientOk(s, c);
    var d := s.clients[c];
    if d.result == WriteOk {
      AcceptedIsWritten(s.sent, s.replies, d.ticket.value);
    }
  }

  /** Once the device loop has ended, whoever waits is answered: with the reply given, or with none. */
  lemma {:induction false} NobodyWaitsForever(init: State, steps: seq<Step>, c: nat)
    requires Init(init) && After(init, steps).Some? && After(init, steps).value.phase.Exited?
    requires c in After(init, steps).value.clients && !After(init, steps).value.clients[c].Done?
    ensures var s := After(init, steps).value;
            var step := if s.clients[c].Sending? then SendFails(c) else Receive(c);
            && Enabled(s, step)
            && Do(s, step).clients[c].Done?
            && (s.clients[c].Waiting? && s.clients[c].index >= |s.replies| ==> Do(s, step).clients[c].result == NoReply)
  {
    ReachableInv(init, steps);
    var s := After(init, steps).value;
    if s.clients[c].Waiting? {
      assert s.replies[0..] == s.replies;
      ReplyIsAtIndex(s.replies, 0, s.clients[c].index);
    }
  }

  /** Backoff starts only without a source and after a failure; the failure count is the current
      streak; and a write is refused exactly when it is served while there is no source. */
  lemma {:induction false} BackoffAndRefusals(init: State, steps: seq<Step>)
    requires Init(init) && After(init, steps).Some?
    ensures var s := After(init, steps).value;
            && (s.phase.BackingOff? ==> !s.connected && s.failures >= 1)
            && s.failures == Streak(s.events)
            && s.connected == Live(s.events)
            && (forall p, i, outcome :: 0 <= p < |s.events| && s.events[p] == Served(i, outcome) ==>
                                          (outcome == Refused <==> !Live(s.events[..p])))
  {
    ReachableInv(init, steps);
  }

  // ----- The backoff delay -----

  const U64_MAX: int := 0xFFFF_FFFF_FFFF_FFFF

  function Least(a: nat, b: nat): nat { if a < b then a else b }

  function Greatest(a: nat, b: nat): nat { if a > b then a else b }

  function Pow2(e: nat): nat {
    if e == 0 then 1 else 2 * Pow2(e - 1)
  }

  /** Milliseconds to wait after `failures` failures, in saturating 64-bit arithmetic. */
  function Delay(initialMs: nat, maxMs: nat, failures: nat): nat {
    var base := Greatest(initialMs, 1);
    var max := Greatest(maxMs, base);
    var exponent := Least(failures, 10);
    Least(Least(base * Pow2(exponent), U64_MAX), max)
  }

  lemma {:induction false} Pow2Grows(a: nat, b: nat)
    requires a <= b
    ensures 1 <= Pow2(a) <= Pow2(b)
    decreases b
  {
    if a < b {
      Pow2Grows(a, b - 1);
    } else if a > 0 {
      Pow2Grows(a - 1, b - 1);
    }
  }

  lemma {:induction false} ScaledGrows(base: nat, a: nat, b: nat)
    requires a <= b
    ensures base * a <= base * b
  {
  }

  /** The shift never overflows, longer streaks never shorten the delay, and from the first failure
      on it lies between twice the initial delay and the maximum. */
  lemma {:induction false} DelayBounds(initialMs: nat, maxMs: nat, failures: nat, more: nat)
    requires initialMs <= U64_MAX && maxMs <= U64_MAX && failures <= more
    ensures Pow2(Least(failures, 10)) <= 1024
    ensures Delay(initialMs, maxMs, failures) <= Delay(initialMs, maxMs, more)
    ensures var base := Greatest(initialMs, 1);
            var max := Greatest(maxMs, base);
            && Delay(initialMs, maxMs, failures) <= max
            && (failures >= 1 ==> Least(2 * base, max) <= Delay(initialMs, maxMs, failures))
  {
    var base := Greatest(initialMs, 1);
    var a, b := Least(failures, 10), Least(more, 10);
    Pow2Grows(a, b);
    Pow2Grows(a, 10);
    assert Pow2(10) == 1024;
    ScaledGrows(base, Pow2(a), Pow2(b));
    if failures >= 1 {
      Pow2Grows(1, a);
      ScaledGrows(base, 2, Pow2(a));
    }
  }

  /** For a checked configuration the delay reaches the configured maximum and no more. */
  lemma {:induction false} DelayReachesMaximum(initialMs: nat, maxMs: nat, failures: nat)
    requires 1 <= initialMs <= maxMs <= U64_MAX && failures >= 10 && maxMs <= 1024 * initialMs
    ensures Delay(initialMs, maxMs, failures) == maxMs
  {
    assert Pow2(10) == 1024;
  }

  /** Without a failure the delay is the initial one, at least a millisecond; each of the first ten
      failures doubles it up to the maximum, and further ones leave it. */
  lemma {:induction false} DelayDoubles(initialMs: nat, maxMs: nat, failures: nat)
    requires initialMs <= U64_MAX && maxMs <= U64_MAX
    ensures var base := if initialMs == 0 then 1 else initialMs;
            var max := if maxMs < base then base else maxMs;
            var now, next := Delay(initialMs, maxMs, failures), Delay(initialMs, maxMs, failures + 1);
            && Delay(initialMs, maxMs, 0) == base
            && next == (if failures >= 10 then now else if 2 * now < max then 2 * now else max)
  {
    var base := Greatest(initialMs, 1);
    var n := Pow2(Least(failures, 10));
    assert Pow2(0) == 1;
    Pow2Grows(0, Least(failures, 10));
    assert failures < 10 ==> base * (2 * n) == 2 * (base * n);
    ScaledGrows(base, 1, n);
  }
}
