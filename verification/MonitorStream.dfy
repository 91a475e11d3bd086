/** What a client of `monitor_queue` can hear, and how much can be buffered for it. */
module MonitorStream {
  import opened Wrappers
  import opened MonitorQueue

  predicate EventsOnly(ms: seq<Message>) {
    forall m | m in ms :: m.item.Event?
  }

  predicate FaultsOnly(ms: seq<Message>) {
    forall m | m in ms :: m.item.Fault?
  }

  /** At most the last item is an error status. */
  predicate FaultOnlyLast(ms: seq<Message>) {
    ms == [] || EventsOnly(ms[..|ms| - 1])
  }

  /** A single call whose `side` streams while the other side waits, and whose client has
      received the messages `ms`; its stream is over if the last was an error status. */
  function Hearing(side: Side, ms: seq<Message>): Server {
    var call := NewCall().WithProducer(side, Streaming).WithProducer(Other(side), WaitingForSocket);
    var open := ms == [] || ms[|ms| - 1].item.Event?;
    Server([call.(receiverOpen := open, accepted := ms, delivered := ms)], Some((0, side)))
  }

  /** The websocket notifies, the channel accepts, the client receives. */
  lemma {:induction false} HearOneMore(run: seq<Server>, side: Side, ms: seq<Message>, msg: Message)
    returns (run': seq<Server>)
    requires IsRun(run) && run[|run| - 1] == Hearing(side, ms) && msg.from == side
    requires Hearing(side, ms).calls[0].receiverOpen
    ensures IsRun(run') && run'[|run'| - 1] == Hearing(side, ms + [msg])
  {
    var streaming := Hearing(side, ms).calls[0];
    var sending := streaming.WithProducer(side, Sending(msg));
    var s1 := Server([sending], Some((0, side)));
    assert [streaming][0 := sending] == [sending] && msg == Message(side, msg.item);
    ExtendRun(run, Producing(0, side), s1);
    var accepted := streaming.(buffer := [msg], accepted := ms + [msg]);
    var s2 := Server([accepted], Some((0, side)));
    assert streaming.buffer + [msg] == [msg] && [sending][0 := accepted] == [accepted];
    ExtendRun(run + [s1], Producing(0, side), s2);
    var s3 := Hearing(side, ms + [msg]);
    assert accepted.buffer[1..] == [] && [accepted][0 := s3.calls[0]] == s3.calls;
    ExtendRun(run + [s1] + [s2], Client(0), s3);
    run' := run + [s1] + [s2] + [s3];
  }

  lemma {:induction false} FrontIsHeard(side: Side, ms: seq<Message>)
    requires ms != [] && AllFrom(ms, side) && FaultOnlyLast(ms)
    ensures var front, last := ms[..|ms| - 1], ms[|ms| - 1];
            && ms == front + [last] && last.from == side
            && AllFrom(front, side) && FaultOnlyLast(front)
            && Hearing(side, front).calls[0].receiverOpen
  {
    var n := |ms| - 1;
    assert ms[n] in ms && forall m | m in ms[..n] :: m in ms;
    if n > 0 {
      assert ms[..n][n - 1] in ms[..n];
      assert forall m | m in ms[..n][..n - 1] :: m in ms[..n];
    }
  }

  /** Back-pressure: a producer with a message for a listening client can go on exactly
      when fewer than four are buffered. */
  lemma {:induction false} SendsIffRoom(s: Server, c: nat, side: Side)
    requires c < |s.calls| && s.calls[c].receiverOpen && s.calls[c].Producer(side).Sending?
    ensures (exists s' :: ProducerStep(s, c, side, s')) <==> |s.calls[c].buffer| < 4
  {
    var call := s.calls[c];
    var msg := call.Producer(side).msg;
    if |call.buffer| < 4 {
      assert ProducerStep(s, c, side, s.(calls := s.calls[c := call.WithProducer(side, Streaming)
                            .(buffer := call.buffer + [msg], accepted := call.accepted + [msg])]));
    }
  }

  /** The state after a client that takes nothing was sent the messages `ms`. */
  function Waiting(side: Side, ms: seq<Message>): Server {
    var call := Hearing(side, []).calls[0];
    Server([call.(buffer := ms, accepted := ms)], Some((0, side)))
  }

  /** A client that takes nothing can have any four messages of one side buffered. */
  lemma {:induction false} FourCanBeBuffered(side: Side, ms: seq<Message>) returns (run: seq<Server>)
    requires |ms| <= 4 && AllFrom(ms, side)
    ensures IsRun(run) && run[|run| - 1] == Waiting(side, ms)
  {
    if ms == [] {
      run := Subscribed(side);
    } else {
      var front, msg := ms[..|ms| - 1], ms[|ms| - 1];
      assert msg in ms && forall m | m in front :: m in ms;
      run := FourCanBeBuffered(side, front);
      var before := Waiting(side, front).calls[0];
      var sending := before.WithProducer(side, Sending(msg));
      var s1, s2 := Server([sending], Some((0, side))), Waiting(side, ms);
      assert [before][0 := sending] == [sending] && msg == Message(side, msg.item);
      ExtendRun(run, Producing(0, side), s1);
      assert ms == front + [msg] && [sending][0 := s2.calls[0]] == s2.calls;
      ExtendRun(run + [s1], Producing(0, side), s2);
      run := run + [s1] + [s2];
    }
  }

  /** Whichever side gets the websocket, its client can hear any sequence of its messages
      up to the first error status; the other producer is waiting all the while. */
  lemma {:induction false} AnySideIsHeard(side: Side, ms: seq<Message>) returns (run: seq<Server>)
    requires AllFrom(ms, side) && FaultOnlyLast(ms)
    ensures IsRun(run) && run[|run| - 1] == Hearing(side, ms)
  {
    if ms == [] {
      run := Subscribed(side);
    } else {
      var n := |ms| - 1;
      FrontIsHeard(side, ms);
      run := AnySideIsHeard(side, ms[..n]);
      run := HearOneMore(run, side, ms[..n], ms[n]);
    }
  }

  lemma {:induction false} Subscribed(side: Side) returns (run: seq<Server>)
    ensures IsRun(run) && run[|run| - 1] == Hearing(side, [])
  {
    run := [Server([], None)];
    var call := NewCall();
    ExtendRun(run, Arrival, Server([call], None));
    run := run + [Server([call], None)];
    call := call.(bids := WaitingForSocket);
    ExtendRun(run, Producing(0, Bids), Server([call], None));
    run := run + [Server([call], None)];
    call := call.(asks := WaitingForSocket);
    ExtendRun(run, Producing(0, Asks), Server([call], None));
    run := run + [Server([call], None)];
    call := call.WithProducer(side, Subscribing);
    ExtendRun(run, Producing(0, side), Server([call], Some((0, side))));
    run := run + [Server([call], Some((0, side)))];
    ExtendRun(run, Producing(0, side), Hearing(side, []));
    run := run + [Hearing(side, [])];
  }

  /** A client that still listens has had events only, and an error status is the last
      thing any client gets. */
  lemma {:induction false} FaultEndsStream(run: seq<Server>, k: nat, c: nat)
    requires IsRun(run) && k < |run| && c < |run[k].calls|
    ensures FaultOnlyLast(run[k].calls[c].delivered)
    ensures run[k].calls[c].receiverOpen ==> EventsOnly(run[k].calls[c].delivered)
  {
    if k > 0 {
      assert StepAt(run, k - 1);
      var actor :| Step(run[k - 1], actor, run[k]);
      if c < |run[k - 1].calls| {
        FaultEndsStream(run, k - 1, c);
        StepKeepsStream(run[k - 1], actor, run[k], c);
      }
    }
  }

  lemma {:induction false} StepKeepsStream(s: Server, a: Actor, s': Server, c: nat)
    requires Step(s, a, s') && c < |s.calls|
    requires FaultOnlyLast(s.calls[c].delivered)
    requires s.calls[c].receiverOpen ==> EventsOnly(s.calls[c].delivered)
    ensures c < |s'.calls| && FaultOnlyLast(s'.calls[c].delivered)
    ensures s'.calls[c].receiverOpen ==> EventsOnly(s'.calls[c].delivered)
  {
    var before, after := s.calls[c].delivered, s'.calls[c].delivered;
    if before != after {
      assert after[..|after| - 1] == before;
    }
  }

  ghost predicate Hears(run: seq<Server>, c: nat, ms: seq<Message>) {
    IsRun(run) && c < |run[|run| - 1].calls| && run[|run| - 1].calls[c].delivered == ms
  }

  /** What clients can hear is exactly the one-sided sequences of events, with or without
      an error status at the end. */
  lemma {:induction false} HeardIff(ms: seq<Message>)
    ensures (exists run, c :: Hears(run, c, ms)) <==> FaultOnlyLast(ms) && exists side :: AllFrom(ms, side)
  {
    if run, c :| Hears(run, c, ms) {
      StreamIsOneSided(run, |run| - 1, c);
      FaultEndsStream(run, |run| - 1, c);
    }
    if side :| FaultOnlyLast(ms) && AllFrom(ms, side) {
      var run := AnySideIsHeard(side, ms);
      assert Hears(run, 0, ms);
    }
  }

  /** Both readers return an error for every notification, as does every other branch. */
  ghost predicate ReadersAsCoded(run: seq<Server>)
    requires run != []
  {
    forall call | call in run[|run| - 1].calls :: FaultsOnly(call.accepted)
  }

  lemma {:induction false} EventBeforeLast(ms: seq<Message>, i: nat)
    requires FaultOnlyLast(ms) && i + 1 < |ms|
    ensures ms[i] in ms && ms[i].item.Event?
  {
    assert ms[..|ms| - 1][i] in ms[..|ms| - 1];
  }

  lemma {:induction false} LoneFault(ms: seq<Message>)
    requires FaultsOnly(ms) && FaultOnlyLast(ms)
    ensures |ms| <= 1
  {
    if |ms| > 1 {
      EventBeforeLast(ms, 0);
    }
  }

  /** With the readers as they are, a client hears nothing or a single error status. */
  lemma {:induction false} HeardAsCodedIff(ms: seq<Message>)
    ensures (exists run, c :: Hears(run, c, ms) && ReadersAsCoded(run)) <==> FaultsOnly(ms) && |ms| <= 1
  {
    if run, c :| Hears(run, c, ms) && ReadersAsCoded(run) {
      FaultEndsStream(run, |run| - 1, c);
      AcceptedBeforeDelivered(run, |run| - 1, c);
      assert FaultsOnly(ms);
      LoneFault(ms);
    }
    if FaultsOnly(ms) && |ms| <= 1 {
      var side := if ms == [] then Bids else ms[0].from;
      var run := AnySideIsHeard(side, ms);
      assert Hears(run, 0, ms) && ReadersAsCoded(run);
    }
  }

  lemma {:induction false} AcceptedBeforeDelivered(run: seq<Server>, k: nat, c: nat)
    requires IsRun(run) && k < |run| && c < |run[k].calls|
    ensures run[k].calls[c] in run[k].calls
    ensures forall m | m in run[k].calls[c].delivered :: m in run[k].calls[c].accepted
  {
    ChannelIsBoundedFifo(run, k, c);
    var call := run[k].calls[c];
    forall m | m in call.delivered
      ensures m in call.accepted
    {
      var i :| 0 <= i < |call.delivered| && call.delivered[i] == m;
      assert call.accepted[i] == m;
    }
  }
}
