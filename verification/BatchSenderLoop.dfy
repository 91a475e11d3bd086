/** `send_tx` itself: the nested loops over mutable records, driven by whatever the
    network answers, follow the transition system of BatchSender. */
module BatchSenderLoop {
  import opened Wrappers
  import opened Words
  import opened BatchSender

  /** A positive answer to a signature lookup, and when it was asked for. */
  datatype Confirmation = Confirmation(sig: Signature, askedAt: nat)

  /** What the network said to one request. */
  datatype Reply =
    | Submission(sig: Option<Signature>)
    | Transmission(sent: bool)
    | Lookup(about: Signature, answer: Option<bool>)

  /** The RPC node, the TPU client and the clock. Answers and delays are arbitrary; the
      logs record what was handed over and what was answered. */
  class Network<T> {
    var clock: nat
    ghost var submitted: seq<T>
    ghost var answers: seq<Option<Signature>>
    ghost var transmitted: seq<seq<byte>>
    ghost var confirmations: seq<Confirmation>
    ghost var replies: seq<Reply>
    ghost var readings: seq<nat>

    constructor ()
      ensures Quiet()
    {
      clock := 0;
      submitted, answers, transmitted, confirmations, replies, readings := [], [], [], [], [], [];
    }

    ghost predicate Quiet()
      reads this
    {
      && submitted == [] && answers == [] && transmitted == [] && confirmations == []
      && replies == [] && readings == []
    }

    method ReadClock() returns (now: nat)
      modifies this`clock, this`readings
      ensures now == clock >= old(clock) && readings == old(readings) + [now]
    {
      var delay: nat :| delay >= 0;
      clock := clock + delay;
      now := clock;
      readings := readings + [now];
    }

    method SendTransaction(tx: T) returns (answer: Option<Signature>)
      modifies this`clock, this`submitted, this`answers, this`replies
      ensures clock >= old(clock) && submitted == old(submitted) + [tx] && answers == old(answers) + [answer]
      ensures replies == old(replies) + [Submission(answer)]
    {
      var delay: nat :| delay >= 0;
      clock := clock + delay;
      answer := *;
      submitted, answers, replies := submitted + [tx], answers + [answer], replies + [Submission(answer)];
    }

    method SendWireTransaction(bytes: seq<byte>) returns (sent: bool)
      modifies this`clock, this`transmitted, this`replies
      ensures clock >= old(clock) && transmitted == old(transmitted) + [bytes]
      ensures replies == old(replies) + [Transmission(sent)]
    {
      var delay: nat :| delay >= 0;
      clock := clock + delay;
      transmitted := transmitted + [bytes];
      sent := *;
      replies := replies + [Transmission(sent)];
    }

    method Sleep(millis: nat)
      modifies this`clock
      ensures clock >= old(clock) + millis
    {
      var delay: nat :| delay >= 0;
      clock := clock + millis + delay;
    }

    method ConfirmTransaction(sig: Signature) returns (answer: Option<bool>)
      modifies this`clock, this`confirmations, this`replies
      ensures clock >= old(clock) && replies == old(replies) + [Lookup(sig, answer)]
      ensures confirmations == if answer == Some(true) then old(confirmations) + [Confirmation(sig, old(clock))]
                               else old(confirmations)
    {
      ghost var askedAt := clock;
      var delay: nat :| delay >= 0;
      clock := clock + delay;
      answer := *;
      replies := replies + [Lookup(sig, answer)];
      if answer == Some(true) {
        confirmations := confirmations + [Confirmation(sig, askedAt)];
      }
    }
  }

  class SendResult<T> {
    var inSystem: bool
    var sig: Option<Signature>
    const tx: T
    const serializedTx: seq<byte>

    constructor (tx: T, serializedTx: seq<byte>)
      ensures !inSystem && sig == None && this.tx == tx && this.serializedTx == serializedTx
    {
      inSystem, sig := false, None;
      this.tx, this.serializedTx := tx, serializedTx;
    }

    method SetSig(sig: Signature)
      modifies this`sig
      ensures this.sig == Some(sig)
    {
      this.sig := Some(sig);
    }
  }

  ghost predicate Distinct<T>(list: seq<SendResult<T>>) {
    forall i, j | 0 <= i < j < |list| :: list[i] != list[j]
  }

  /** The records as the transition system sees them. */
  ghost predicate Shows<T>(list: seq<SendResult<T>>, records: seq<Record>)
    reads list
  {
    && |records| == |list|
    && forall i | 0 <= i < |list| :: records[i] == Record(list[i].sig, list[i].inSystem)
  }

  ghost predicate Carries<T(!new)>(list: seq<SendResult<T>>, txList: seq<seq<byte>>, decode: seq<byte> -> Option<T>)
  {
    && |list| <= |txList|
    && forall i | 0 <= i < |list| :: decode(txList[i]) == Some(list[i].tx) && list[i].serializedTx == txList[i]
  }

  /** The logs of indices name exactly what went over the network. */
  ghost predicate Sent<T>(submitted: seq<T>, transmitted: seq<seq<byte>>, list: seq<SendResult<T>>,
                                rpcLog: seq<nat>, tpuLog: seq<nat>)
  {
    && |submitted| == |rpcLog|
    && (forall k | 0 <= k < |rpcLog| :: rpcLog[k] < |list| && submitted[k] == list[rpcLog[k]].tx)
    && |transmitted| == |tpuLog|
    && (forall k | 0 <= k < |tpuLog| :: tpuLog[k] < |list| && transmitted[k] == list[tpuLog[k]].serializedTx)
  }

  ghost predicate ConfirmedBy(log: seq<Confirmation>, rec: Record) {
    exists k | 0 <= k < |log| :: rec.sig == Some(log[k].sig)
  }

  /** The last answer confirms record i and takes nothing away from the others. */
  lemma {:induction false} ConfirmRecord(log: seq<Confirmation>, records: seq<Record>, i: nat)
    requires log != [] && i < |records| && records[i].sig == Some(log[|log| - 1].sig)
    requires forall j | 0 <= j < |records| && records[j].inSystem :: ConfirmedBy(log[..|log| - 1], records[j])
    ensures var records' := records[i := records[i].(inSystem := true)];
            forall j | 0 <= j < |records'| && records'[j].inSystem :: ConfirmedBy(log, records'[j])
  {
    var records' := records[i := records[i].(inSystem := true)];
    forall j | 0 <= j < |records'| && records'[j].inSystem
      ensures ConfirmedBy(log, records'[j])
    {
      if j == i {
        assert records'[j].sig == Some(log[|log| - 1].sig);
      } else {
        var k :| 0 <= k < |log| - 1 && records[j].sig == Some(log[..|log| - 1][k].sig);
        assert records'[j].sig == Some(log[k].sig);
      }
    }
  }

  /** What the records hold is what the network answered: to each submission the signature
      of its record, and to some lookup of a confirmed record's signature yes. */
  ghost predicate Answered(answers: seq<Option<Signature>>, confirmations: seq<Confirmation>, records: seq<Record>,
                           rpcLog: seq<nat>, confirmed: nat)
  {
    && |answers| == |rpcLog|
    && (forall k | 0 <= k < |rpcLog| :: rpcLog[k] < |records| && answers[k] == records[rpcLog[k]].sig)
    && |confirmations| == confirmed
    && (forall j | 0 <= j < |records| && records[j].inSystem :: ConfirmedBy(confirmations, records[j]))
  }

  /** The answer to a submission is noted in the record it was for. */
  lemma {:induction false} RecordAnswer(answers: seq<Option<Signature>>, confirmations: seq<Confirmation>,
      records: seq<Record>, rpcLog: seq<nat>, confirmed: nat, i: nat, answer: Option<Signature>)
    requires Answered(answers, confirmations, records, rpcLog, confirmed)
    requires i < |records| && i !in rpcLog && records[i] == Record(None, false)
    ensures var records' := records[i := Record(answer, false)];
            && (answer.None? ==> records' == records)
            && Answered(answers + [answer], confirmations, records', rpcLog + [i], confirmed)
  {
  }

  lemma {:induction false} NextInLine(run: seq<State>, n: nat, limit: nat, i: nat)
    requires IsRun(run, n, limit) && run[|run| - 1].place == Submitting(i)
    requires i < |run[|run| - 1].records| && run[|run| - 1].records[i].sig.None?
    ensures i !in run[|run| - 1].rpcLog && run[|run| - 1].records[i] == Record(None, false)
  {
    RunReachable(run, n, limit, |run| - 1);
  }

  /** Both, for the network and a state. */
  ghost predicate Accounted<T>(net: Network<T>, list: seq<SendResult<T>>, s: State)
    reads net
  {
    && Sent(net.submitted, net.transmitted, list, s.rpcLog, s.tpuLog)
    && Answered(net.answers, net.confirmations, s.records, s.rpcLog, s.confirmed)
  }

  predicate Refused(reply: Reply) {
    reply == Submission(None) || reply == Transmission(false) || (reply.Lookup? && reply.answer == None)
  }

  /** Nothing has been refused. */
  predicate NoRefusal(replies: seq<Reply>) {
    replies == [] || (!Refused(replies[|replies| - 1]) && NoRefusal(replies[..|replies| - 1]))
  }

  lemma {:induction false} NoRefusalAt(replies: seq<Reply>, k: nat)
    requires NoRefusal(replies) && k < |replies|
    ensures !Refused(replies[k])
  {
    if k < |replies| - 1 {
      NoRefusalAt(replies[..|replies| - 1], k);
    }
  }

  /** Either nothing was refused, or the last reply is the only refusal and the failure is
      the one it calls for. */
  ghost predicate Explains(replies: seq<Reply>, failure: Option<SendError>) {
    if failure.None? then NoRefusal(replies)
    else
      && replies != [] && NoRefusal(replies[..|replies| - 1])
      && var last := replies[|replies| - 1];
         match failure.value
         case NoSignature => last == Submission(None)
         case FailedToTransmit => last == Transmission(false)
         case ConfirmationCheckFailed => last.Lookup? && last.answer == None
         case _ => false
  }

  lemma {:induction false} ReplyExplains(replies: seq<Reply>, reply: Reply, failure: Option<SendError>)
    requires NoRefusal(replies)
    requires match failure
             case None => !Refused(reply)
             case Some(NoSignature) => reply == Submission(None)
             case Some(FailedToTransmit) => reply == Transmission(false)
             case Some(ConfirmationCheckFailed) => reply.Lookup? && reply.answer == None
             case _ => false
    ensures Explains(replies + [reply], failure)
  {
    assert (replies + [reply])[..|replies|] == replies;
  }

  /** The readings behind a run: the clock at each decision of the outer loop. */
  function Decisions(run: seq<State>, now: nat): seq<nat> {
    if |run| <= 1 then []
    else
      Decisions(run[..|run| - 1], now)
      + (if run[|run| - 2].place.Head? then [now + run[|run| - 1].clock] else [])
  }

  method Deserialize<T(!new)>(txList: seq<seq<byte>>, decode: seq<byte> -> Option<T>)
    returns (list: seq<SendResult<T>>, ok: bool)
    ensures fresh(list) && Distinct(list) && Carries(list, txList, decode)
    ensures Shows(list, seq(|list|, _ => Record(None, false)))
    ensures ok <==> forall i | 0 <= i < |txList| :: decode(txList[i]).Some?
    ensures ok ==> |list| == |txList|
  {
    list := [];
    for n := 0 to |txList|
      invariant |list| == n && fresh(list) && Distinct(list) && Carries(list, txList, decode)
      invariant forall i | 0 <= i < n :: list[i].sig == None && !list[i].inSystem
    {
      var decoded := decode(txList[n]);
      if decoded.None? {
        return list, false;
      }
      var sr := new SendResult(decoded.value, txList[n]);
      list := list + [sr];
    }
    ok := true;
  }

  /** The program's variables agree with the last state of the run so far. */
  ghost predicate Follows<T>(net: Network<T>, list: seq<SendResult<T>>, confirmed: nat, now: nat, limit: nat,
                             run: seq<State>)
    reads net, list
  {
    && IsRun(run, |list|, limit) && Distinct(list)
    && var s := run[|run| - 1];
       && s.passes <= MaxPasses(limit)
       && net.clock - now >= s.clock
       && Shows(list, s.records)
       && confirmed == s.confirmed
       && Accounted(net, list, s)
  }

  function FreshState(n: nat): State {
    State(seq(n, _ => Record(None, false)), 0, 0, Head, 0, [], [])
  }

  lemma {:induction false} StartFollows<T>(net: Network<T>, list: seq<SendResult<T>>, now: nat, limit: nat)
    requires net.submitted == [] && net.answers == [] && net.transmitted == [] && net.confirmations == []
    requires net.clock >= now
    requires Distinct(list) && Shows(list, FreshState(|list|).records)
    ensures Follows(net, list, 0, now, limit, [FreshState(|list|)])
  {
  }

  /** The run's clock is the network's, read against `now`; `first` is the first reading
      of the outer loop. */
  ghost predicate Timed(run: seq<State>, now: nat, first: nat, end: nat) {
    && now <= first <= end
    && |run| > 1 && run[0].clock == 0 && run[1].clock == first - now
    && run[|run| - 1].clock <= end - now
  }

  /** The same before the first pass, and between passes, with the last reading. */
  ghost predicate TimedSoFar(run: seq<State>, now: nat, first: nat, reading: nat) {
    && now <= first <= reading
    && |run| > 0 && run[0].clock == 0
    && if |run| == 1 then reading == first else run[1].clock == first - now
  }

  lemma {:induction false} StillTimed(run: seq<State>, run': seq<State>, now: nat, first: nat, reading: nat, end: nat)
    requires TimedSoFar(run, now, first, reading) && reading <= end
    requires run < run' && run'[|run|].clock == reading - now && run'[|run'| - 1].clock <= end - now
    ensures Timed(run', now, first, end) && TimedSoFar(run', now, first, end)
  {
  }

  /** `Explains`, spelled out. */
  lemma {:induction false} ExplainedInFull(replies: seq<Reply>, response: Response)
    requires !response.Panic? && Explains(replies, if response.Ok? then None else Some(response.error))
    ensures var n := |replies|;
            && (response == Err(NoSignature) <==> n > 0 && replies[n - 1] == Submission(None))
            && (response == Err(FailedToTransmit) <==> n > 0 && replies[n - 1] == Transmission(false))
            && (response == Err(ConfirmationCheckFailed)
                <==> n > 0 && replies[n - 1].Lookup? && replies[n - 1].answer == None)
            && (response.Ok?
                || response in {Err(NoSignature), Err(FailedToTransmit), Err(ConfirmationCheckFailed)})
            && forall k | 0 <= k < n - 1 ::
                 && replies[k] != Submission(None) && replies[k] != Transmission(false)
                 && (replies[k].Lookup? ==> replies[k].answer != None)
  {
    forall k | 0 <= k < |replies| - 1
      ensures !Refused(replies[k])
    {
      NoRefusalAt(replies[..|replies| - 1], k);
    }
  }

  method SendTx<T(!new)>(net: Network<T>, txList: seq<seq<byte>>, decode: seq<byte> -> Option<T>, limit: nat)
    returns (response: Response, ghost list: seq<SendResult<T>>, ghost run: seq<State>, ghost now: nat,
             ghost first: nat)
    requires net.Quiet()
    modifies net
    ensures (exists i :: 0 <= i < |txList| && decode(txList[i]).None?) ==>
              response == Err(FailedToDeserialize) && net.Quiet() && net.clock == old(net.clock)
    ensures (forall i :: 0 <= i < |txList| ==> decode(txList[i]).Some?) ==>
              && IsRun(run, |txList|, limit)
              && run[|run| - 1].place == Returned(response)
              && |list| == |txList| && Carries(list, txList, decode)
              && Shows(list, run[|run| - 1].records)
              && Accounted(net, list, run[|run| - 1])
              && old(net.clock) <= now && Timed(run, now, first, net.clock)
              && net.readings == [now] + Decisions(run, now)
    // an error is what the last reply calls for, and no earlier reply was a refusal
    ensures (forall i :: 0 <= i < |txList| ==> decode(txList[i]).Some?) ==>
              var n := |net.replies|;
              && (response == Err(NoSignature) <==> n > 0 && net.replies[n - 1] == Submission(None))
              && (response == Err(FailedToTransmit) <==> n > 0 && net.replies[n - 1] == Transmission(false))
              && (response == Err(ConfirmationCheckFailed)
                  <==> n > 0 && net.replies[n - 1].Lookup? && net.replies[n - 1].answer == None)
              && (response.Ok?
                  || response in {Err(NoSignature), Err(FailedToTransmit), Err(ConfirmationCheckFailed)})
              && forall k | 0 <= k < n - 1 ::
                   && net.replies[k] != Submission(None) && net.replies[k] != Transmission(false)
                   && (net.replies[k].Lookup? ==> net.replies[k].answer != None)
  {
    var sigList, ok := Deserialize(txList, decode);
    list, run, now, first := sigList, [], 0, 0;
    if !ok {
      return Err(FailedToDeserialize), list, run, now, first;
    }
    response, run, now, first := SendAll(net, sigList, limit);
    ExplainedInFull(net.replies, response);
  }

  /** The outer loop is about to decide on `reading`. */
  ghost predicate Between<T>(net: Network<T>, list: seq<SendResult<T>>, confirmed: nat, now: nat, limit: nat,
                             run: seq<State>, reading: nat, first: nat)
    reads net, list
  {
    && Follows(net, list, confirmed, now, limit, run) && run[|run| - 1].place == Head
    && net.clock >= reading && reading - now >= run[|run| - 1].clock
    && TimedSoFar(run, now, first, reading)
    && net.readings == [now] + Decisions(run, now) + [reading]
    && NoRefusal(net.replies)
  }

  /** The call is over: what it owes its caller. */
  ghost predicate Finished<T>(net: Network<T>, list: seq<SendResult<T>>, limit: nat, run: seq<State>,
                              response: Response, now: nat, first: nat)
    reads net, list
  {
    && IsRun(run, |list|, limit) && run[|run| - 1].place == Returned(response)
    && Shows(list, run[|run| - 1].records) && Accounted(net, list, run[|run| - 1])
    && Timed(run, now, first, net.clock) && net.readings == [now] + Decisions(run, now)
    && !response.Panic? && Explains(net.replies, if response.Ok? then None else Some(response.error))
  }

  /** The outer loop, once every transaction has been deserialized. */
  method SendAll<T>(net: Network<T>, list: seq<SendResult<T>>, limit: nat)
    returns (response: Response, ghost run: seq<State>, ghost now: nat, ghost first: nat)
    requires net.Quiet()
    requires Distinct(list) && Shows(list, seq(|list|, _ => Record(None, false)))
    modifies net, list
    ensures old(net.clock) <= now && Finished(net, list, limit, run, response, now, first)
  {
    var start := net.ReadClock();
    now := start;
    run := [FreshState(|list|)];
    StartFollows(net, list, start, limit);

    var reading: nat := net.ReadClock();
    first := reading;
    var failure, confirmedTxCount;
    failure, confirmedTxCount, reading, run := OuterLoop(net, list, start, limit, run, reading);
    if failure.Some? {
      return Err(failure.value), run, now, first;
    }
    var signatures := GenSigList(list, run[|run| - 1].records);
    response := Ok(signatures);
    run := EndRun(net, list, confirmedTxCount, start, limit, run, reading, first);
  }

  /** The outer loop: passes until the time is up or everything is confirmed. */
  method OuterLoop<T>(net: Network<T>, list: seq<SendResult<T>>, start: nat, limit: nat, ghost run: seq<State>,
                      first: nat)
    returns (failure: Option<SendError>, confirmed: nat, reading: nat, ghost run': seq<State>)
    requires Between(net, list, 0, start, limit, run, first, first)
    modifies net, list
    ensures failure.None? ==>
              && Between(net, list, confirmed, start, limit, run', reading, first)
              && ((reading - start) / 1000 > limit || confirmed >= |list|)
    ensures failure.Some? ==> Finished(net, list, limit, run', Err(failure.value), start, first)
  {
    confirmed, reading, run' := 0, first, run;
    failure := None;
    while (reading - start) / 1000 <= limit && confirmed < |list|
      invariant Between(net, list, confirmed, start, limit, run', reading, first) && failure.None?
      modifies net, list
      decreases MaxPasses(limit) - run'[|run'| - 1].passes
    {
      failure, confirmed, reading, run' := OneTurn(net, list, confirmed, start, limit, run', reading, first);
      if failure.Some? {
        return;
      }
    }
  }

  lemma {:induction false} Decided(run: seq<State>, next: State, now: nat)
    requires run != []
    ensures Decisions(run + [next], now)
         == Decisions(run, now) + if run[|run| - 1].place.Head? then [now + next.clock] else []
  {
    assert (run + [next])[..|run|] == run;
  }

  /** Within a pass the outer loop decides nothing. */
  lemma {:induction false} NoDecision(begun: seq<State>, run: seq<State>, n: nat, limit: nat, now: nat)
    requires IsRun(run, n, limit) && begun != [] && begun <= run && !begun[|begun| - 1].place.Head?
    requires run[|run| - 1].passes == begun[|begun| - 1].passes
    requires run[|run| - 1].place.Returned? ==> run[|run| - 1].place.response.Err?
    ensures Decisions(run, now) == Decisions(begun, now)
    decreases |run|
  {
    if |run| > |begun| {
      var k := |run| - 2;
      var front := run[..|run| - 1];
      assert StepAt(run, limit, k);
      PassesOnlyGrow(run, n, limit, |begun| - 1, k);
      FrontIsRun(run, n, limit);
      NoDecision(begun, front, n, limit, now);
    } else {
      assert run == begun;
    }
  }

  /** A pass is one decision. */
  lemma {:induction false} PassDecision(run: seq<State>, run': seq<State>, n: nat, limit: nat, now: nat)
    requires IsRun(run', n, limit) && run != [] && run < run' && run[|run| - 1].place.Head?
    requires run'[|run'| - 1].passes == run[|run| - 1].passes + 1
    requires run'[|run'| - 1].place.Returned? ==> run'[|run'| - 1].place.response.Err?
    ensures Decisions(run', now) == Decisions(run, now) + [now + run'[|run|].clock]
  {
    var begun := run'[..|run| + 1];
    assert StepAt(run', limit, |run| - 1);
    if run'[|run|].place.Returned? {
      ReturnIsFinal(run', n, limit, |run|);
    }
    assert begun == run + [run'[|run|]];
    Decided(run, run'[|run|], now);
    NoDecision(begun, run', n, limit, now);
  }

  /** One turn of the outer loop: a pass and, unless it failed, the next reading. */
  method OneTurn<T>(net: Network<T>, list: seq<SendResult<T>>, confirmed: nat, ghost now: nat, ghost limit: nat,
                    ghost run: seq<State>, reading: nat, ghost first: nat)
    returns (failure: Option<SendError>, confirmed': nat, reading': nat, ghost run': seq<State>)
    requires Between(net, list, confirmed, now, limit, run, reading, first)
    requires (reading - now) / 1000 <= limit && confirmed < |list|
    modifies net, list
    ensures run' != [] && run'[|run'| - 1].passes == run[|run| - 1].passes + 1
    ensures failure.None? ==> Between(net, list, confirmed', now, limit, run', reading', first)
    ensures failure.Some? ==> Finished(net, list, limit, run', Err(failure.value), now, first)
  {
    failure, confirmed', run' := OnePass(net, list, confirmed, now, limit, run, reading - now);
    PassDecision(run, run', |list|, limit, now);
    reading' := reading;
    if failure.None? {
      reading' := ReadNext(net, list, confirmed', now, limit, run');
    }
    StillTimed(run, run', now, first, reading, net.clock);
  }

  method ReadNext<T>(net: Network<T>, ghost list: seq<SendResult<T>>, ghost confirmed: nat, ghost now: nat,
                     ghost limit: nat, ghost run: seq<State>)
    returns (reading: nat)
    requires Follows(net, list, confirmed, now, limit, run)
    modifies net`clock, net`readings
    ensures Follows(net, list, confirmed, now, limit, run)
    ensures reading == net.clock >= old(net.clock) && net.readings == old(net.readings) + [reading]
  {
    reading := net.ReadClock();
  }

  /** The outer loop is left. */
  ghost method EndRun<T>(net: Network<T>, list: seq<SendResult<T>>, confirmed: nat, now: nat, limit: nat,
                         run: seq<State>, reading: nat, first: nat)
    returns (run': seq<State>)
    requires Between(net, list, confirmed, now, limit, run, reading, first)
    requires (reading - now) / 1000 > limit || confirmed >= |list|
    ensures Finished(net, list, limit, run', Ok(SigList(run[|run| - 1].records)), now, first)
  {
    var s := run[|run| - 1];
    run' := Advance(run, |list|, limit, s.(clock := reading - now, place := Returned(Ok(SigList(s.records)))));
    Decided(run, run'[|run|], now);
    StillTimed(run, run', now, first, reading, net.clock);
  }

  ghost method BeginPass<T>(net: Network<T>, list: seq<SendResult<T>>, confirmed: nat, now: nat, limit: nat,
                            run: seq<State>, elapsed: nat)
    returns (run': seq<State>)
    requires Follows(net, list, confirmed, now, limit, run) && run[|run| - 1].place == Head
    requires run[|run| - 1].clock <= elapsed <= net.clock - now
    requires elapsed / 1000 <= limit && confirmed < |list|
    ensures Follows(net, list, confirmed, now, limit, run') && run'[|run'| - 1].place == Submitting(0)
    ensures run'[|run'| - 1].passes == run[|run| - 1].passes + 1
    ensures run < run' && run'[|run|].clock == elapsed
  {
    var s := run[|run| - 1];
    run' := Advance(run, |list|, limit, s.(clock := elapsed, place := Submitting(0), passes := s.passes + 1));
  }

  /** The inner loop. */
  method OnePass<T>(net: Network<T>, list: seq<SendResult<T>>, confirmed: nat, ghost now: nat, ghost limit: nat,
                    ghost run: seq<State>, ghost elapsed: nat)
    returns (failure: Option<SendError>, confirmed': nat, ghost run': seq<State>)
    requires Follows(net, list, confirmed, now, limit, run) && run[|run| - 1].place == Head
    requires run[|run| - 1].clock <= elapsed <= net.clock - now
    requires elapsed / 1000 <= limit && confirmed < |list| && NoRefusal(net.replies)
    modifies net`clock, net`submitted, net`answers, net`transmitted, net`confirmations, net`replies, list
    ensures Follows(net, list, confirmed', now, limit, run')
    ensures Explains(net.replies, failure)
    ensures run < run' && run'[|run|].clock == elapsed && net.clock >= old(net.clock)
    ensures run'[|run'| - 1].passes == run[|run| - 1].passes + 1
    ensures run'[|run'| - 1].place == if failure.None? then Head else Returned(Err(failure.value))
  {
    confirmed' := confirmed;
    run' := BeginPass(net, list, confirmed, now, limit, run, elapsed);
    for i := 0 to |list|
      invariant Follows(net, list, confirmed', now, limit, run')
      invariant run'[|run'| - 1].place == Submitting(i) && run'[|run'| - 1].passes == run[|run| - 1].passes + 1
      invariant run < run' && run'[|run|].clock == elapsed && net.clock >= old(net.clock)
      invariant NoRefusal(net.replies)
      modifies net`clock, net`submitted, net`answers, net`transmitted, net`confirmations, net`replies, list
    {
      failure, confirmed', run' := VisitRecord(net, list[i], list, i, confirmed', now, limit, run');
      if failure.Some? {
        return;
      }
    }
    run' := Advance(run', |list|, limit, run'[|run'| - 1].(place := Head));
    failure := None;
  }

  /** The inner loop's body. */
  method VisitRecord<T>(net: Network<T>, sr: SendResult<T>, ghost list: seq<SendResult<T>>, ghost i: nat,
      confirmed: nat, ghost now: nat, ghost limit: nat, ghost run: seq<State>)
    returns (failure: Option<SendError>, confirmed': nat, ghost run': seq<State>)
    requires Follows(net, list, confirmed, now, limit, run)
    requires i < |list| && run[|run| - 1].place == Submitting(i)
    requires sr == list[i] && NoRefusal(net.replies)
    modifies net`clock, net`submitted, net`answers, net`transmitted, net`confirmations, net`replies, sr
    ensures Explains(net.replies, failure)
    ensures Follows(net, list, confirmed', now, limit, run') && run'[|run'| - 1].passes == run[|run| - 1].passes
    ensures run'[|run'| - 1].place == if failure.None? then Submitting(i + 1) else Returned(Err(failure.value))
    ensures run <= run' && net.clock >= old(net.clock)
  {
    confirmed' := confirmed;
    failure, run' := SubmitOnce(net, sr, list, i, confirmed, now, limit, run);
    if old(sr.sig).None? {
      ReplyExplains(old(net.replies), Submission(sr.sig), failure);
    }
    if failure.None? {
      ghost var before := net.replies;
      failure, confirmed', run' := TransmitAndConfirm(net, sr, list, i, confirmed, now, limit, run');
      VisitExplained(before, net.replies, sr.sig, sr.inSystem, failure);
    }
  }

  /** The replies to one visit after the submission. */
  lemma {:induction false} VisitExplained(before: seq<Reply>, after: seq<Reply>, sig: Option<Signature>, yes: bool,
                                          failure: Option<SendError>)
    requires NoRefusal(before)
    requires || (failure == None && after == before)
             || (failure == Some(FailedToTransmit) && after == before + [Transmission(false)])
             || (sig.Some? && failure == Some(ConfirmationCheckFailed)
                 && after == before + [Transmission(true), Lookup(sig.value, None)])
             || (sig.Some? && failure == None
                 && after == before + [Transmission(true), Lookup(sig.value, Some(yes))])
    ensures Explains(after, failure)
  {
    if failure == Some(FailedToTransmit) {
      ReplyExplains(before, Transmission(false), failure);
    } else if after != before {
      var answer := if failure == None then Some(yes) else None;
      AppendedTwo(before, Transmission(true), Lookup(sig.value, answer));
      ReplyExplains(before, Transmission(true), None);
      ReplyExplains(before + [Transmission(true)], Lookup(sig.value, answer), failure);
    }
  }

  lemma {:induction false} AppendedTwo(before: seq<Reply>, a: Reply, b: Reply)
    ensures before + [a, b] == (before + [a]) + [b]
  {
  }

  /** First half of the inner loop's body: a record without a signature goes to the RPC
      node. */
  method SubmitOnce<T>(net: Network<T>, sr: SendResult<T>, ghost list: seq<SendResult<T>>, ghost i: nat,
      ghost confirmed: nat, ghost now: nat, ghost limit: nat, ghost run: seq<State>)
    returns (failure: Option<SendError>, ghost run': seq<State>)
    requires Follows(net, list, confirmed, now, limit, run)
    requires i < |list| && run[|run| - 1].place == Submitting(i)
    requires sr == list[i]
    modifies net`clock, net`submitted, net`answers, net`replies, sr`sig
    ensures Follows(net, list, confirmed, now, limit, run') && run'[|run'| - 1].passes == run[|run| - 1].passes
    ensures run'[|run'| - 1].place == if failure.None? then Transmitting(i) else Returned(Err(failure.value))
    ensures run <= run' && run'[|run'| - 1].tpuLog == run[|run| - 1].tpuLog && net.clock >= old(net.clock)
    ensures old(sr.sig).None? ==>
              && run'[|run'| - 1].rpcLog == run[|run| - 1].rpcLog + [i]
              && net.submitted == old(net.submitted) + [sr.tx]
              && net.answers == old(net.answers) + [sr.sig]
              && net.replies == old(net.replies) + [Submission(sr.sig)]
              && failure == if sr.sig.Some? then None else Some(NoSignature)
    ensures old(sr.sig).Some? ==>
              && run'[|run'| - 1].rpcLog == run[|run| - 1].rpcLog
              && net.submitted == old(net.submitted) && net.answers == old(net.answers)
              && net.replies == old(net.replies) && sr.sig == old(sr.sig) && failure == None
  {
    ghost var n, s := |list|, run[|run| - 1];
    if sr.sig.None? {
      var sigResult := net.SendTransaction(sr.tx);
      NextInLine(run, n, limit, i);
      RecordAnswer(old(net.answers), net.confirmations, s.records, s.rpcLog, s.confirmed, i, sigResult);
      s := s.(clock := net.clock - now, rpcLog := s.rpcLog + [i]);
      if sigResult.None? {
        run' := Advance(run, n, limit, s.(place := Returned(Err(NoSignature))));
        return Some(NoSignature), run';
      }
      sr.SetSig(sigResult.value);
      run' := Advance(run, n, limit, s.(place := Transmitting(i),
                                        records := s.records[i := s.records[i].(sig := Some(sigResult.value))]));
    } else {
      run' := Advance(run, n, limit, s.(place := Transmitting(i)));
    }
    failure := None;
  }

  /** Second half: an unconfirmed record goes to the TPU and, after the pause, its
      signature is looked up. */
  method TransmitAndConfirm<T>(net: Network<T>, sr: SendResult<T>, ghost list: seq<SendResult<T>>, ghost i: nat,
      confirmed: nat, ghost now: nat, ghost limit: nat, ghost run: seq<State>)
    returns (failure: Option<SendError>, confirmed': nat, ghost run': seq<State>)
    requires Follows(net, list, confirmed, now, limit, run)
    requires i < |list| && run[|run| - 1].place == Transmitting(i)
    requires sr == list[i]
    modifies net`clock, net`transmitted, net`confirmations, net`replies, sr`inSystem
    ensures Follows(net, list, confirmed', now, limit, run') && run'[|run'| - 1].passes == run[|run| - 1].passes
    ensures run'[|run'| - 1].place == if failure.None? then Submitting(i + 1) else Returned(Err(failure.value))
    ensures run <= run' && run'[|run'| - 1].rpcLog == run[|run| - 1].rpcLog && net.clock >= old(net.clock)
    ensures old(sr.inSystem) ==>
              && run'[|run'| - 1].tpuLog == run[|run| - 1].tpuLog && net.transmitted == old(net.transmitted)
              && net.replies == old(net.replies) && sr.inSystem && failure == None
    // a refused transmission, a lookup without an answer, or an answer of yes or no
    ensures !old(sr.inSystem) ==>
              && sr.sig.Some?
              && (|| (failure == Some(FailedToTransmit) && !sr.inSystem
                      && net.replies == old(net.replies) + [Transmission(false)])
                  || (failure == Some(ConfirmationCheckFailed) && !sr.inSystem
                      && net.replies == old(net.replies) + [Transmission(true), Lookup(sr.sig.value, None)])
                  || (failure == None
                      && net.replies
                         == old(net.replies) + [Transmission(true), Lookup(sr.sig.value, Some(sr.inSystem))]))
    ensures !old(sr.inSystem) ==>
              && run'[|run'| - 1].tpuLog == run[|run| - 1].tpuLog + [i]
              && net.transmitted == old(net.transmitted) + [sr.serializedTx]
    ensures if sr.inSystem && !old(sr.inSystem) then
              && confirmed' == confirmed + 1 && failure == None
              && exists askedAt | askedAt >= old(net.clock) + PAUSE ::
                   net.confirmations == old(net.confirmations) + [Confirmation(sr.sig.value, askedAt)]
            else
              confirmed' == confirmed && net.confirmations == old(net.confirmations)
  {
    ghost var n := |list|;
    run' := run;
    confirmed' := confirmed;
    if sr.inSystem {
      run' := Advance(run, n, limit, run[|run| - 1].(place := Submitting(i + 1)));
      return None, confirmed', run';
    }
    SignatureIsSet(run, n, limit, i);
    failure, run' := TransmitOnce(net, sr, list, i, confirmed, now, limit, run');
    if failure.Some? {
      return failure, confirmed', run';
    }
    failure, confirmed', run' := LookUp(net, sr, list, i, confirmed, now, limit, run');
  }

  lemma {:induction false} SignatureIsSet(run: seq<State>, n: nat, limit: nat, i: nat)
    requires IsRun(run, n, limit) && run[|run| - 1].place == Transmitting(i)
    ensures i < |run[|run| - 1].records| && run[|run| - 1].records[i].sig.Some?
  {
    RunReachable(run, n, limit, |run| - 1);
  }

  method TransmitOnce<T>(net: Network<T>, sr: SendResult<T>, ghost list: seq<SendResult<T>>, ghost i: nat,
      ghost confirmed: nat, ghost now: nat, ghost limit: nat, ghost run: seq<State>)
    returns (failure: Option<SendError>, ghost run': seq<State>)
    requires Follows(net, list, confirmed, now, limit, run)
    requires i < |list| && run[|run| - 1].place == Transmitting(i)
    requires sr == list[i] && !sr.inSystem
    modifies net`clock, net`transmitted, net`replies
    ensures Follows(net, list, confirmed, now, limit, run') && run'[|run'| - 1].passes == run[|run| - 1].passes
    ensures run'[|run'| - 1].place == if failure.None? then Confirming(i) else Returned(Err(failure.value))
    ensures run <= run' && run'[|run'| - 1].rpcLog == run[|run| - 1].rpcLog && net.clock >= old(net.clock)
    ensures run'[|run'| - 1].tpuLog == run[|run| - 1].tpuLog + [i]
    ensures net.transmitted == old(net.transmitted) + [sr.serializedTx]
    ensures failure.None? ==> net.clock >= old(net.clock) + PAUSE
    ensures net.replies == old(net.replies) + [Transmission(failure.None?)]
    ensures failure == None || failure == Some(FailedToTransmit)
  {
    ghost var n, s := |list|, run[|run| - 1];
    var x := CopyBytes(sr.serializedTx);
    var sent := net.SendWireTransaction(x);
    s := s.(tpuLog := s.tpuLog + [i]);
    if !sent {
      run' := Advance(run, n, limit, s.(place := Returned(Err(FailedToTransmit))));
      return Some(FailedToTransmit), run';
    }
    net.Sleep(PAUSE);
    run' := Advance(run, n, limit, s.(clock := net.clock - now, place := Confirming(i)));
    failure := None;
  }

  /** The lookup of a transmitted record's signature. */
  method LookUp<T>(net: Network<T>, sr: SendResult<T>, ghost list: seq<SendResult<T>>, ghost i: nat,
      confirmed: nat, ghost now: nat, ghost limit: nat, ghost run: seq<State>)
    returns (failure: Option<SendError>, confirmed': nat, ghost run': seq<State>)
    requires Follows(net, list, confirmed, now, limit, run)
    requires i < |list| && run[|run| - 1].place == Confirming(i)
    requires sr == list[i] && !sr.inSystem
    modifies net`clock, net`confirmations, net`replies, sr`inSystem
    ensures sr.sig.None? ==>
              failure == Some(FailedToGetSignature) && net.replies == old(net.replies)
    ensures sr.sig.Some? ==>
              || (failure == Some(ConfirmationCheckFailed) && !sr.inSystem
                  && net.replies == old(net.replies) + [Lookup(sr.sig.value, None)])
              || (failure == None
                  && net.replies == old(net.replies) + [Lookup(sr.sig.value, Some(sr.inSystem))])
    ensures Follows(net, list, confirmed', now, limit, run') && run'[|run'| - 1].passes == run[|run| - 1].passes
    ensures run'[|run'| - 1].place == if failure.None? then Submitting(i + 1) else Returned(Err(failure.value))
    ensures run <= run' && net.clock >= old(net.clock)
    ensures run'[|run'| - 1].rpcLog == run[|run| - 1].rpcLog && run'[|run'| - 1].tpuLog == run[|run| - 1].tpuLog
    ensures if sr.inSystem then
              && confirmed' == confirmed + 1 && failure == None && sr.sig.Some?
              && net.confirmations == old(net.confirmations) + [Confirmation(sr.sig.value, old(net.clock))]
            else
              confirmed' == confirmed && net.confirmations == old(net.confirmations)
  {
    ghost var n, s := |list|, run[|run| - 1];
    confirmed' := confirmed;
    if sr.sig.None? {
      run' := Advance(run, n, limit, s.(place := Returned(Err(FailedToGetSignature))));
      return Some(FailedToGetSignature), confirmed', run';
    }
    var r := net.ConfirmTransaction(sr.sig.value);
    if r.None? {
      run' := Advance(run, n, limit, s.(place := Returned(Err(ConfirmationCheckFailed))));
      return Some(ConfirmationCheckFailed), confirmed', run';
    }
    if r.value {
      sr.inSystem := true;
      confirmed' := confirmed + 1;
      ConfirmRecord(net.confirmations, s.records, i);
      s := s.(confirmed := s.confirmed + 1, records := s.records[i := s.records[i].(inSystem := true)]);
    }
    run' := Advance(run, n, limit, s.(clock := net.clock - now, place := Submitting(i + 1)));
    failure := None;
  }

  /** One step of the transition system taken by the loop. */
  ghost method Advance(run: seq<State>, n: nat, limit: nat, next: State) returns (run': seq<State>)
    requires IsRun(run, n, limit) && Step(limit, run[|run| - 1], next)
    ensures IsRun(run', n, limit) && run' == run + [next]
    ensures next.passes <= MaxPasses(limit)
  {
    ExtendRun(run, n, limit, next);
    run' := run + [next];
    RunReachable(run', n, limit, |run|);
  }

  method CopyBytes(bytes: seq<byte>) returns (x: seq<byte>)
    ensures x == bytes
  {
    x := [];
    for k := 0 to |bytes|
      invariant x == bytes[..k]
    {
      x := x + [bytes[k]];
    }
  }

  method GenSigList<T>(list: seq<SendResult<T>>, ghost records: seq<Record>) returns (signatures: seq<seq<byte>>)
    requires Shows(list, records)
    ensures signatures == SigList(records)
  {
    signatures := [];
    for k := 0 to |list|
      invariant |signatures| == k
      invariant forall j | 0 <= j < k :: signatures[j] == SigBytes(records[j])
    {
      if list[k].sig.None? {
        signatures := signatures + [[]];
      } else {
        signatures := signatures + [list[k].sig.value];
      }
    }
  }
}
