/** `monitor_queue`: every call spawns a bids and an asks producer, which share the one
    websocket mutex with the producers of all other calls and feed the bounded channel
    of their own call. */
module MonitorQueue {
  import opened Wrappers

  datatype Side = Bids | Asks

  /** What a producer sends: a decoded event, or an error status. */
  datatype Item =
    | Event(content: nat)
    | Fault(status: string)

  /** A message, tagged with the producer it comes from. */
  datatype Message = Message(from: Side, item: Item)

  /** Where a producer stands. `Sending` holds a message not yet accepted by the
      channel. */
  datatype Phase =
    | Unspawned
    | WaitingForSocket
    | Subscribing
    | Streaming
    | Sending(msg: Message)
    | Stopped

  /** One call: its producers, its channel, and ghost-like logs of everything the channel
      accepted and everything the client received. */
  datatype Call = Call(bids: Phase, asks: Phase, receiverOpen: bool, buffer: seq<Message>,
                       accepted: seq<Message>, delivered: seq<Message>)
  {
    function Producer(side: Side): Phase {
      if side == Bids then bids else asks
    }

    function WithProducer(side: Side, p: Phase): Call {
      if side == Bids then this.(bids := p) else this.(asks := p)
    }
  }

  const CAPACITY := 4

  /** All calls so far and the owner of the websocket guard. */
  datatype Server = Server(calls: seq<Call>, socket: Option<(nat, Side)>)

  function NewCall(): Call {
    Call(Unspawned, Unspawned, true, [], [], [])
  }

  predicate OwnsSocket(p: Phase) {
    p.Subscribing? || p.Streaming? || p.Sending?
  }

  /** One step of one producer. The guard is taken when it first runs and dropped when it
      stops: on a failed subscription (a panic on the bids side, a return on the asks
      side) and on a send into a channel whose receiver is gone. */
  ghost predicate ProducerStep(s: Server, c: nat, side: Side, s': Server)
    requires c < |s.calls|
  {
    var call := s.calls[c];
    match call.Producer(side)
    case Unspawned =>
      // the handler spawns bids first
      && (side == Asks ==> !call.bids.Unspawned?)
      && s' == s.(calls := s.calls[c := call.WithProducer(side, WaitingForSocket)])
    case WaitingForSocket =>
      && s.socket.None?
      && s' == Server(s.calls[c := call.WithProducer(side, Subscribing)], Some((c, side)))
    case Subscribing =>
      || s' == s.(calls := s.calls[c := call.WithProducer(side, Streaming)])
      || s' == Server(s.calls[c := call.WithProducer(side, Stopped)], None)
    case Streaming =>
      exists item: Item :: s' == s.(calls := s.calls[c := call.WithProducer(side, Sending(Message(side, item)))])
    case Sending(msg) =>
      if call.receiverOpen then
        && |call.buffer| < CAPACITY
        && s' == s.(calls := s.calls[c := call.WithProducer(side, Streaming)
                                              .(buffer := call.buffer + [msg], accepted := call.accepted + [msg])])
      else
        s' == Server(s.calls[c := call.WithProducer(side, Stopped)], None)
    case Stopped => false
  }

  /** The client takes the oldest message, or goes away. An error status ends its stream.
      When the stream is over the rest is discarded. */
  ghost predicate ClientStep(s: Server, c: nat, s': Server)
    requires c < |s.calls|
  {
    var call := s.calls[c];
    && call.receiverOpen
    && (|| (&& call.buffer != []
            && var rest := if call.buffer[0].item.Event? then call.buffer[1..] else [];
               s' == s.(calls := s.calls[c := call.(receiverOpen := call.buffer[0].item.Event?, buffer := rest,
                                                    delivered := call.delivered + [call.buffer[0]])]))
        || s' == s.(calls := s.calls[c := call.(receiverOpen := false, buffer := [])]))
  }

  datatype Actor = Arrival | Producing(c: nat, side: Side) | Client(c: nat)

  ghost predicate Step(s: Server, a: Actor, s': Server) {
    match a
    case Arrival => s' == s.(calls := s.calls + [NewCall()])
    case Producing(c, side) => c < |s.calls| && ProducerStep(s, c, side, s')
    case Client(c) => c < |s.calls| && ClientStep(s, c, s')
  }

  ghost predicate Moves(s: Server, s': Server) {
    exists a :: Step(s, a, s')
  }

  ghost predicate StepAt(run: seq<Server>, k: nat)
    requires k < |run| - 1
  {
    Moves(run[k], run[k + 1])
  }

  ghost predicate IsRun(run: seq<Server>) {
    && run != []
    && run[0] == Server([], None)
    && forall k | 0 <= k < |run| - 1 :: StepAt(run, k)
  }

  lemma {:induction false} ExtendRun(run: seq<Server>, actor: Actor, s': Server)
    requires IsRun(run) && Step(run[|run| - 1], actor, s')
    ensures IsRun(run + [s'])
  {
    var run' := run + [s'];
    forall k | 0 <= k < |run'| - 1
      ensures StepAt(run', k)
    {
      if k < |run| - 1 {
        assert StepAt(run, k);
        assert run'[k] == run[k] && run'[k + 1] == run[k + 1];
      } else {
        assert Step(run'[k], actor, run'[k + 1]);
      }
    }
  }

  // ---------- the invariant ----------

  ghost predicate AllFrom(ms: seq<Message>, side: Side) {
    forall m | m in ms :: m.from == side
  }

  ghost predicate OneSided(ms: seq<Message>) {
    ms != [] ==> AllFrom(ms, ms[0].from)
  }

  ghost predicate CallInv(call: Call) {
    && |call.buffer| <= CAPACITY
    && call.delivered + call.buffer <= call.accepted
    && (call.receiverOpen ==> call.delivered + call.buffer == call.accepted)
    && (!call.receiverOpen ==> call.buffer == [])
    && OneSided(call.accepted)
    // whoever had a message accepted streams until the receiver is gone
    && (call.receiverOpen && call.accepted != [] ==>
          var p := call.Producer(call.accepted[0].from);
          p.Streaming? || p.Sending?)
    && (call.bids.Sending? ==> call.bids.msg.from == Bids)
    && (call.asks.Sending? ==> call.asks.msg.from == Asks)
  }

  /** The guard's owner is the one producer beyond waiting and not stopped. */
  ghost predicate SocketInv(s: Server) {
    && (s.socket.Some? ==> s.socket.value.0 < |s.calls|)
    && forall c: nat, side | c < |s.calls| :: Owned(s, c, side)
  }

  ghost predicate Owned(s: Server, c: nat, side: Side)
    requires c < |s.calls|
  {
    OwnsSocket(s.calls[c].Producer(side)) <==> s.socket == Some((c, side))
  }

  ghost predicate Inv(s: Server) {
    SocketInv(s) && forall c | 0 <= c < |s.calls| :: CallInv(s.calls[c])
  }

  function Other(side: Side): Side {
    if side == Bids then Asks else Bids
  }

  /** The accepting send. */
  lemma {:induction false} AcceptKeepsCallInv(call: Call, side: Side)
    requires CallInv(call) && call.Producer(side).Sending? && call.receiverOpen && |call.buffer| < CAPACITY
    requires !OwnsSocket(call.Producer(Other(side)))
    ensures var msg := call.Producer(side).msg;
            CallInv(call.WithProducer(side, Streaming)
                        .(buffer := call.buffer + [msg], accepted := call.accepted + [msg]))
  {
    var msg := call.Producer(side).msg;
    assert call.delivered + (call.buffer + [msg]) == (call.delivered + call.buffer) + [msg];
    assert call.accepted != [] ==> call.accepted[0].from == side;
    AppendOneSided(call.accepted, msg);
  }

  lemma {:induction false} AppendOneSided(ms: seq<Message>, msg: Message)
    requires OneSided(ms) && (ms != [] ==> ms[0].from == msg.from)
    ensures OneSided(ms + [msg]) && (ms + [msg])[0].from == msg.from
  {
    forall m | m in ms + [msg]
      ensures m.from == msg.from
    {
      assert m in ms || m == msg;
    }
  }

  /** Any other step of a producer only moves its phase. */
  lemma {:induction false} PhaseKeepsCallInv(call: Call, side: Side, p: Phase)
    requires CallInv(call)
    requires !OwnsSocket(call.Producer(side)) || !OwnsSocket(call.Producer(Other(side)))
    requires p.Sending? ==> p.msg.from == side
    requires call.Producer(side).Streaming? || call.Producer(side).Sending? ==>
               p.Streaming? || p.Sending? || !call.receiverOpen
    ensures CallInv(call.WithProducer(side, p))
  {
    var call' := call.WithProducer(side, p);
    assert call'.Producer(Other(side)) == call.Producer(Other(side)) && call'.Producer(side) == p;
    if call.receiverOpen && call.accepted != [] {
      var first := call.accepted[0].from;
      assert first == side || first == Other(side);
    }
  }

  lemma {:induction false} ProducerKeepsCallInv(s: Server, c: nat, side: Side, s': Server)
    requires Inv(s) && c < |s.calls| && ProducerStep(s, c, side, s')
    ensures |s'.calls| == |s.calls| && CallInv(s'.calls[c])
    ensures forall d | 0 <= d < |s.calls| && d != c :: s'.calls[d] == s.calls[d]
  {
    var call := s.calls[c];
    assert CallInv(call) && Owned(s, c, side) && Owned(s, c, Other(side));
    if call.Producer(side).Sending? && call.receiverOpen {
      AcceptKeepsCallInv(call, side);
    } else {
      PhaseKeepsCallInv(call, side, s'.calls[c].Producer(side));
    }
  }

  lemma {:induction false} ProducerKeepsSocketInv(s: Server, c: nat, side: Side, s': Server)
    requires Inv(s) && c < |s.calls| && ProducerStep(s, c, side, s')
    ensures SocketInv(s')
  {
    assert Owned(s, c, side);
    forall d: nat, t | d < |s'.calls|
      ensures Owned(s', d, t)
    {
      assert Owned(s, d, t);
      if (d, t) != (c, side) {
        assert s'.calls[d].Producer(t) == s.calls[d].Producer(t);
      }
    }
  }

  lemma {:induction false} ClientKeepsInv(s: Server, c: nat, s': Server)
    requires Inv(s) && c < |s.calls| && ClientStep(s, c, s')
    ensures Inv(s')
  {
    var call, call' := s.calls[c], s'.calls[c];
    assert CallInv(call);
    if call'.receiverOpen {
      assert call'.delivered + call'.buffer == call.delivered + call.buffer;
    } else {
      assert call'.delivered + call'.buffer <= call.delivered + call.buffer;
    }
    forall d: nat, t | d < |s'.calls|
      ensures Owned(s', d, t)
    {
      assert Owned(s, d, t);
      assert s'.calls[d].Producer(t) == s.calls[d].Producer(t);
    }
    assert CallInv(call');
    forall d | 0 <= d < |s'.calls|
      ensures CallInv(s'.calls[d])
    {
      assert d == c || s'.calls[d] == s.calls[d];
    }
  }

  lemma {:induction false} ArrivalKeepsInv(s: Server, s': Server)
    requires Inv(s) && s' == s.(calls := s.calls + [NewCall()])
    ensures Inv(s')
  {
    forall d: nat, t | d < |s'.calls|
      ensures Owned(s', d, t)
    {
      if d < |s.calls| { assert Owned(s, d, t); }
    }
    forall d | 0 <= d < |s'.calls|
      ensures CallInv(s'.calls[d])
    {
      assert d == |s.calls| || s'.calls[d] == s.calls[d];
    }
  }

  lemma {:induction false} StepKeepsInv(s: Server, a: Actor, s': Server)
    requires Inv(s) && Step(s, a, s')
    ensures Inv(s')
  {
    match a
    case Arrival =>
      ArrivalKeepsInv(s, s');
    case Producing(c, side) =>
      ProducerKeepsCallInv(s, c, side, s');
      ProducerKeepsSocketInv(s, c, side, s');
      forall d | 0 <= d < |s'.calls|
        ensures CallInv(s'.calls[d])
      {
        assert d == c || s'.calls[d] == s.calls[d];
      }
    case Client(c) =>
      ClientKeepsInv(s, c, s');
  }

  lemma {:induction false} RunKeepsInv(run: seq<Server>, k: nat)
    requires IsRun(run) && k < |run|
    ensures Inv(run[k])
  {
    if k > 0 {
      RunKeepsInv(run, k - 1);
      assert StepAt(run, k - 1);
      var a :| Step(run[k - 1], a, run[k]);
      StepKeepsInv(run[k - 1], a, run[k]);
    }
  }

  // ---------- what holds over whole runs ----------

  /** At most one producer of all calls is past waiting for the websocket. */
  lemma {:induction false} OneProducerAtATime(run: seq<Server>, k: nat, c: nat, side: Side, d: nat, t: Side)
    requires IsRun(run) && k < |run| && c < |run[k].calls| && d < |run[k].calls|
    requires OwnsSocket(run[k].calls[c].Producer(side)) && OwnsSocket(run[k].calls[d].Producer(t))
    ensures c == d && side == t
  {
    RunKeepsInv(run, k);
    assert Owned(run[k], c, side) && Owned(run[k], d, t);
  }

  /** Every channel is bounded and first-in first-out: what the client has received,
      followed by what is buffered, is what was accepted, in that order. */
  lemma {:induction false} ChannelIsBoundedFifo(run: seq<Server>, k: nat, c: nat)
    requires IsRun(run) && k < |run| && c < |run[k].calls|
    ensures var call := run[k].calls[c];
            && |call.buffer| <= 4
            && call.delivered <= call.accepted
            && (if call.receiverOpen then call.delivered + call.buffer == call.accepted else call.buffer == [])
  {
    RunKeepsInv(run, k);
    assert CallInv(run[k].calls[c]);
  }

  /** The two sides are meant to be merged, but each client only ever hears one of them. */
  lemma {:induction false} StreamIsOneSided(run: seq<Server>, k: nat, c: nat)
    requires IsRun(run) && k < |run| && c < |run[k].calls|
    ensures exists side :: AllFrom(run[k].calls[c].delivered, side)
  {
    RunKeepsInv(run, k);
    var call := run[k].calls[c];
    assert CallInv(call);
    if call.accepted == [] {
      assert AllFrom(call.delivered, Bids);
    } else {
      forall m | m in call.delivered
        ensures m in call.accepted
      {
        var i :| 0 <= i < |call.delivered| && call.delivered[i] == m;
        assert call.accepted[i] == m;
      }
      assert AllFrom(call.delivered, call.accepted[0].from);
    }
  }

  /** The producer of `side` of call c has had a message accepted and its client is still
      there. */
  ghost predicate Serving(s: Server, c: nat, side: Side) {
    && c < |s.calls| && s.calls[c].receiverOpen
    && s.calls[c].accepted != [] && s.calls[c].accepted[0].from == side
  }

  lemma {:induction false} LogsOnlyGrow(run: seq<Server>, a: nat, b: nat, c: nat)
    requires IsRun(run) && a <= b < |run| && c < |run[a].calls|
    ensures |run[a].calls| <= |run[b].calls|
    ensures run[a].calls[c].accepted <= run[b].calls[c].accepted
    ensures run[b].calls[c].receiverOpen ==> run[a].calls[c].receiverOpen
    decreases b
  {
    if a < b {
      LogsOnlyGrow(run, a, b - 1, c);
      assert StepAt(run, b - 1);
      var actor :| Step(run[b - 1], actor, run[b]);
      StepLogs(run[b - 1], actor, run[b], c);
    }
  }

  lemma {:induction false} StepLogs(s: Server, a: Actor, s': Server, c: nat)
    requires Step(s, a, s') && c < |s.calls|
    ensures |s.calls| <= |s'.calls| && s.calls[c].accepted <= s'.calls[c].accepted
    ensures s'.calls[c].receiverOpen ==> s.calls[c].receiverOpen
    ensures s.calls[c].accepted != s'.calls[c].accepted ==>
              exists side :: OwnsSocket(s.calls[c].Producer(side))
  {
    match a
    case Arrival =>
    case Producing(d, side) =>
      if d == c && s.calls[c].accepted != s'.calls[c].accepted { assert OwnsSocket(s.calls[c].Producer(side)); }
    case Client(d) =>
  }

  /** While one client is being served, no other call makes any progress: its channel
      accepts nothing until that client goes away. */
  lemma {:induction false} ServingStarvesOthers(run: seq<Server>, a: nat, b: nat, c: nat, side: Side, d: nat)
    requires IsRun(run) && a <= b < |run|
    requires Serving(run[a], c, side) && c < |run[b].calls| && run[b].calls[c].receiverOpen
    requires d < |run[a].calls| && d != c
    ensures d < |run[b].calls| && run[b].calls[d].accepted == run[a].calls[d].accepted
    decreases b
  {
    if a < b {
      RunKeepsInv(run, b - 1);
      LogsOnlyGrow(run, a, b - 1, c);
      LogsOnlyGrow(run, a, b - 1, d);
      assert StepAt(run, b - 1);
      var actor :| Step(run[b - 1], actor, run[b]);
      StepLogs(run[b - 1], actor, run[b], c);
      StepLogs(run[b - 1], actor, run[b], d);
      ServingStarvesOthers(run, a, b - 1, c, side, d);
      var s := run[b - 1];
      assert CallInv(s.calls[c]);
      assert s.calls[c].accepted[0] == run[a].calls[c].accepted[0];
      assert Owned(s, c, side);
      assert Owned(s, d, Bids) && Owned(s, d, Asks);
    }
  }

  // ---------- when the websocket changes hands ----------

  /** What a release looks like: the owner stops, either because its subscription failed or
      because it sent to a client that is gone. */
  ghost predicate ReleasedAt(run: seq<Server>, k: nat, c: nat, side: Side)
    requires k < |run| - 1
  {
    && run[k].socket == Some((c, side)) && run[k + 1].socket == None
    && c < |run[k].calls| && c < |run[k + 1].calls|
    && run[k + 1].calls[c].Producer(side) == Stopped
    && (|| run[k].calls[c].Producer(side).Subscribing?
        || (run[k].calls[c].Producer(side).Sending? && !run[k].calls[c].receiverOpen))
  }

  /** An owner either keeps the websocket through a step or releases it in that way. */
  lemma {:induction false} OwnerStep(run: seq<Server>, k: nat, c: nat, side: Side)
    requires IsRun(run) && k < |run| - 1 && run[k].socket == Some((c, side))
    ensures run[k + 1].socket == Some((c, side)) || ReleasedAt(run, k, c, side)
  {
    RunKeepsInv(run, k);
    assert StepAt(run, k);
    var actor :| Step(run[k], actor, run[k + 1]);
    if actor.Producing? {
      assert Owned(run[k], actor.c, actor.side);
    }
  }

  lemma {:induction false} StoppedIsFinal(run: seq<Server>, a: nat, b: nat, c: nat, side: Side)
    requires IsRun(run) && a <= b < |run|
    requires c < |run[a].calls| && run[a].calls[c].Producer(side) == Stopped
    ensures c < |run[b].calls| && run[b].calls[c].Producer(side) == Stopped
    decreases b
  {
    if a < b {
      StoppedIsFinal(run, a, b - 1, c, side);
      assert StepAt(run, b - 1);
      var actor :| Step(run[b - 1], actor, run[b]);
    }
  }

  /** The exact condition: whoever owns the websocket at one time has lost it later exactly
      when it has stopped in between on a failed subscription or on a send to a client that
      is gone. Once lost, it is never owned by that producer again. */
  lemma {:induction false} SocketLostIff(run: seq<Server>, a: nat, b: nat, c: nat, side: Side)
    requires IsRun(run) && a <= b < |run| && run[a].socket == Some((c, side))
    ensures run[b].socket != Some((c, side)) <==> exists k | a <= k < b :: ReleasedAt(run, k, c, side)
    decreases b
  {
    if k :| a <= k < b && ReleasedAt(run, k, c, side) {
      StoppedIsFinal(run, k + 1, b, c, side);
      RunKeepsInv(run, b);
      assert Owned(run[b], c, side);
    }
    if a < b {
      SocketLostIff(run, a, b - 1, c, side);
      if run[b - 1].socket == Some((c, side)) {
        OwnerStep(run, b - 1, c, side);
      }
    }
  }

  /** From its acquisition of the websocket on, and past the departure of its client, a
      producer that still owns it has starved everybody else: no other call's channel has
      accepted anything, and its own call's nothing from the other side. */
  lemma {:induction false} OwnerStarvesOthers(run: seq<Server>, a: nat, b: nat, c: nat, side: Side, d: nat)
    requires IsRun(run) && a <= b < |run| && d < |run[a].calls|
    requires run[a].socket == run[b].socket == Some((c, side))
    ensures d < |run[b].calls| && run[a].calls[d].accepted <= run[b].calls[d].accepted
    ensures d != c ==> run[b].calls[d].accepted == run[a].calls[d].accepted
    ensures d == c ==> AllFrom(run[b].calls[d].accepted[|run[a].calls[d].accepted|..], side)
    decreases b
  {
    if a < b {
      OwnedBefore(run, a, b, c, side);
      OwnerStarvesOthers(run, a, b - 1, c, side, d);
      OthersAcceptNothing(run, b - 1, c, side, d);
      var before, last := run[a].calls[d].accepted, run[b - 1].calls[d].accepted;
      assert run[b].calls[d].accepted[|before|..] == last[|before|..] + run[b].calls[d].accepted[|last|..];
    }
  }

  lemma {:induction false} OwnedBefore(run: seq<Server>, a: nat, b: nat, c: nat, side: Side)
    requires IsRun(run) && a < b < |run|
    requires run[a].socket == run[b].socket == Some((c, side))
    ensures run[b - 1].socket == Some((c, side))
  {
    SocketLostIff(run, a, b - 1, c, side);
    SocketLostIff(run, a, b, c, side);
  }

  /** What a channel accepts comes from the owner of the websocket, one message a step. */
  lemma {:induction false} ProducerAccepts(s: Server, c: nat, side: Side, s': Server, d: nat)
    requires Inv(s) && c < |s.calls| && d < |s.calls| && ProducerStep(s, c, side, s')
    ensures |s'.calls| == |s.calls|
    ensures s'.calls[d].accepted != s.calls[d].accepted ==>
              && d == c && OwnsSocket(s.calls[c].Producer(side))
              && exists msg: Message | msg.from == side :: s'.calls[c].accepted == s.calls[c].accepted + [msg]
  {
    assert CallInv(s.calls[c]);
    if s.calls[c].Producer(side).Sending? && s.calls[c].receiverOpen && d == c {
      var msg := s.calls[c].Producer(side).msg;
      assert msg.from == side && s'.calls[c].accepted == s.calls[c].accepted + [msg];
    }
  }

  lemma {:induction false} OthersAcceptNothing(run: seq<Server>, k: nat, c: nat, side: Side, d: nat)
    requires IsRun(run) && k < |run| - 1 && run[k].socket == Some((c, side)) && d < |run[k].calls|
    ensures d < |run[k + 1].calls| && run[k].calls[d].accepted <= run[k + 1].calls[d].accepted
    ensures d != c ==> run[k + 1].calls[d].accepted == run[k].calls[d].accepted
    ensures AllFrom(run[k + 1].calls[d].accepted[|run[k].calls[d].accepted|..], side)
  {
    RunKeepsInv(run, k);
    assert StepAt(run, k);
    var actor :| Step(run[k], actor, run[k + 1]);
    if actor.Producing? {
      ProducerAccepts(run[k], actor.c, actor.side, run[k + 1], d);
      assert Owned(run[k], actor.c, actor.side);
    }
  }

  /** The asks producer is only ever spawned after the bids producer. */
  lemma {:induction false} BidsAreSpawnedFirst(run: seq<Server>, k: nat, c: nat)
    requires IsRun(run) && k < |run| && c < |run[k].calls|
    ensures run[k].calls[c].bids.Unspawned? ==> run[k].calls[c].asks.Unspawned?
  {
    if k > 0 {
      assert StepAt(run, k - 1);
      var actor :| Step(run[k - 1], actor, run[k]);
      if c < |run[k - 1].calls| {
        BidsAreSpawnedFirst(run, k - 1, c);
      }
    }
  }

  /** From every reachable state some run frees the websocket, without a step of any other
      producer: a subscription may fail; otherwise the client leaves and a send fails. */
  lemma {:induction false} SocketCanBeFreed(run: seq<Server>, c: nat, side: Side) returns (run': seq<Server>)
    requires IsRun(run) && run[|run| - 1].socket == Some((c, side))
    ensures IsRun(run') && run < run' && run'[|run'| - 1].socket == None
    ensures |run'[|run'| - 1].calls| == |run[|run| - 1].calls|
    ensures forall d: nat, t | d < |run[|run| - 1].calls| && (d, t) != (c, side) ::
              run'[|run'| - 1].calls[d].Producer(t) == run[|run| - 1].calls[d].Producer(t)
  {
    var s := run[|run| - 1];
    RunKeepsInv(run, |run| - 1);
    assert Owned(s, c, side);
    var call := s.calls[c];
    if call.Producer(side).Subscribing? {
      var s' := Server(s.calls[c := call.WithProducer(side, Stopped)], None);
      ExtendRun(run, Producing(c, side), s');
      run' := run + [s'];
    } else {
      run' := run;
      if call.receiverOpen {
        call := call.(receiverOpen := false, buffer := []);
        ExtendRun(run', Client(c), s.(calls := s.calls[c := call]));
        run' := run' + [s.(calls := s.calls[c := call])];
      }
      run' := FailingSend(run', c, side);
    }
  }

  lemma {:induction false} FailingSend(run: seq<Server>, c: nat, side: Side) returns (run': seq<Server>)
    requires IsRun(run)
    requires var s := run[|run| - 1];
             && c < |s.calls| && !s.calls[c].receiverOpen
             && (s.calls[c].Producer(side).Streaming? || s.calls[c].Producer(side).Sending?)
    ensures IsRun(run') && run < run'
    ensures var s := run[|run| - 1];
            run'[|run'| - 1] == Server(s.calls[c := s.calls[c].WithProducer(side, Stopped)], None)
  {
    var s := run[|run| - 1];
    var call := s.calls[c];
    var s2 := Server(s.calls[c := call.WithProducer(side, Stopped)], None);
    if call.Producer(side).Streaming? {
      var sending := call.WithProducer(side, Sending(Message(side, Event(0))));
      var s1 := s.(calls := s.calls[c := sending]);
      ExtendRun(run, Producing(c, side), s1);
      assert s1.calls[c := sending.WithProducer(side, Stopped)] == s2.calls;
      ExtendRun(run + [s1], Producing(c, side), s2);
      run' := run + [s1] + [s2];
    } else {
      ExtendRun(run, Producing(c, side), s2);
      run' := run + [s2];
    }
  }

  /** So starvation is never certain: whoever waits for the websocket gets it in some
      continuation. */
  lemma {:induction false} AnyWaiterCanBeNext(run: seq<Server>, c: nat, side: Side) returns (run': seq<Server>)
    requires IsRun(run) && c < |run[|run| - 1].calls|
    requires run[|run| - 1].calls[c].Producer(side) == WaitingForSocket
    ensures IsRun(run') && run < run' && run'[|run'| - 1].socket == Some((c, side))
  {
    run' := run;
    var owner := run[|run| - 1].socket;
    if owner.Some? {
      RunKeepsInv(run, |run| - 1);
      assert Owned(run[|run| - 1], c, side);
      run' := SocketCanBeFreed(run, owner.value.0, owner.value.1);
    }
    var s := run'[|run'| - 1];
    var s' := Server(s.calls[c := s.calls[c].WithProducer(side, Subscribing)], Some((c, side)));
    ExtendRun(run', Producing(c, side), s');
    run' := run' + [s'];
  }
}
