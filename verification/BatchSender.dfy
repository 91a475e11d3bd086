/** The batch sender `send_tx` as a transition system: every RPC and TPU answer, and how
    much time each step takes, is up to the environment. */
module BatchSender {
  import opened Wrappers
  import opened Words

  type Signature = s: seq<byte> | |s| == 64 witness seq(64, _ => 0)

  datatype SendError =
    | FailedToDeserialize
    | NoSignature
    | FailedToTransmit
    | ConfirmationCheckFailed
    | FailedToGetSignature

  type Response = Outcome<seq<seq<byte>>, SendError>

  /** The mutable part of a `SendResult`. */
  datatype Record = Record(sig: Option<Signature>, inSystem: bool)

  /** Where the loop stands: at the head of the outer loop, at one of the three places
      of the inner loop's body for record `at`, or returned. */
  datatype Place =
    | Head
    | Submitting(at: nat)
    | Transmitting(at: nat)
    | Confirming(at: nat)
    | Returned(response: Response)

  /** `clock` is the time since `now`, in milliseconds. The logs hold the index of every
      transaction handed to the RPC node and to the TPU; `passes` counts the rounds of
      the outer loop. */
  datatype State = State(records: seq<Record>, confirmed: nat, clock: nat, place: Place,
                         passes: nat, rpcLog: seq<nat>, tpuLog: seq<nat>)

  const PAUSE := 10  // the blocking sleep, in milliseconds

  function SigBytes(rec: Record): seq<byte> {
    match rec.sig
    case None => []
    case Some(sig) => sig
  }

  /** `gen_sig_list` */
  function SigList(records: seq<Record>): (list: seq<seq<byte>>)
    ensures |list| == |records|
  {
    seq(|records|, i requires 0 <= i < |records| => SigBytes(records[i]))
  }

  ghost predicate Initial(s: State, n: nat) {
    s == State(seq(n, _ => Record(None, false)), 0, s.clock, Head, 0, [], [])
  }

  /** One step; `limit` is MAX_PROCESSING_AGE in seconds. Time may pass in every step,
      and at least the pause between a transmission and the confirmation that follows. */
  ghost predicate Step(limit: nat, s: State, s': State) {
    && s.clock <= s'.clock
    && match s.place
       case Head =>
         if s'.clock / 1000 <= limit && s.confirmed < |s.records| then
           s' == s.(clock := s'.clock, place := Submitting(0), passes := s.passes + 1)
         else
           s' == s.(clock := s'.clock, place := Returned(Ok(SigList(s.records))))
       case Submitting(i) =>
         if i >= |s.records| then
           s' == s.(clock := s'.clock, place := Head)
         else if s.records[i].sig.Some? then
           s' == s.(clock := s'.clock, place := Transmitting(i))
         else
           || s' == s.(clock := s'.clock, place := Returned(Err(NoSignature)), rpcLog := s.rpcLog + [i])
           || exists sig: Signature ::
                s' == s.(clock := s'.clock, place := Transmitting(i), rpcLog := s.rpcLog + [i],
                         records := s.records[i := s.records[i].(sig := Some(sig))])
       case Transmitting(i) =>
         if i >= |s.records| then false
         else if s.records[i].inSystem then
           s' == s.(clock := s'.clock, place := Submitting(i + 1))
         else
           || s' == s.(clock := s'.clock, place := Returned(Err(FailedToTransmit)), tpuLog := s.tpuLog + [i])
           || (&& s'.clock >= s.clock + PAUSE
               && s' == s.(clock := s'.clock, place := Confirming(i), tpuLog := s.tpuLog + [i]))
       case Confirming(i) =>
         if i >= |s.records| then false
         else if s.records[i].sig.None? then
           s' == s.(clock := s'.clock, place := Returned(Err(FailedToGetSignature)))
         else
           || s' == s.(clock := s'.clock, place := Returned(Err(ConfirmationCheckFailed)))
           || s' == s.(clock := s'.clock, place := Submitting(i + 1))
           || s' == s.(clock := s'.clock, place := Submitting(i + 1), confirmed := s.confirmed + 1,
                       records := s.records[i := s.records[i].(inSystem := true)])
       case Returned(_) => false
  }

  ghost predicate IsRun(run: seq<State>, n: nat, limit: nat) {
    && run != []
    && Initial(run[0], n)
    && forall i | 0 <= i < |run| - 1 :: StepAt(run, limit, i)
  }

  ghost predicate StepAt(run: seq<State>, limit: nat, i: nat)
    requires i < |run| - 1
  {
    Step(limit, run[i], run[i + 1])
  }

  lemma {:induction false} ExtendRun(run: seq<State>, n: nat, limit: nat, s': State)
    requires IsRun(run, n, limit) && Step(limit, run[|run| - 1], s')
    ensures IsRun(run + [s'], n, limit)
  {
    var run' := run + [s'];
    forall i | 0 <= i < |run'| - 1
      ensures StepAt(run', limit, i)
    {
      if i < |run| - 1 {
        assert StepAt(run, limit, i);
        assert run'[i] == run[i] && run'[i + 1] == run[i + 1];
      }
    }
  }

  lemma {:induction false} FrontIsRun(run: seq<State>, n: nat, limit: nat)
    requires IsRun(run, n, limit) && |run| > 1
    ensures IsRun(run[..|run| - 1], n, limit) && Step(limit, run[|run| - 2], run[|run| - 1])
  {
    var front := run[..|run| - 1];
    assert StepAt(run, limit, |run| - 2);
    forall i | 0 <= i < |front| - 1
      ensures StepAt(front, limit, i)
    {
      assert StepAt(run, limit, i);
      assert front[i] == run[i] && front[i + 1] == run[i + 1];
    }
  }

  // ---------- the invariant of every reachable state ----------

  function Count(records: seq<Record>): nat {
    if records == [] then 0 else (if records[0].inSystem then 1 else 0) + Count(records[1..])
  }

  lemma {:induction false} CountUpdate(records: seq<Record>, i: nat, rec: Record)
    requires i < |records|
    ensures Count(records[i := rec])
         == Count(records) - (if records[i].inSystem then 1 else 0) + (if rec.inSystem then 1 else 0)
  {
    if i == 0 {
      assert records[i := rec][1..] == records[1..];
    } else {
      assert records[i := rec][1..] == records[1..][i - 1 := rec];
      CountUpdate(records[1..], i - 1, rec);
    }
  }

  lemma {:induction false} CountBound(records: seq<Record>)
    ensures Count(records) <= |records|
    ensures Count(records) == |records| <==> forall i | 0 <= i < |records| :: records[i].inSystem
  {
    if records != [] {
      CountBound(records[1..]);
      assert records == [records[0]] + records[1..];
      if Count(records) == |records| {
        forall i | 0 <= i < |records| ensures records[i].inSystem {
          if i > 0 { assert records[i] == records[1..][i - 1]; }
        }
      }
    }
  }

  /** How many records of the current pass lie behind the loop. */
  function Behind(p: Place, n: nat): nat {
    match p
    case Head => n
    case Submitting(i) => i
    case Transmitting(i) => i
    case Confirming(i) => i
    case Returned(_) => n
  }

  /** How many transactions have been handed to the RPC node, given the place. */
  function Submitted(s: State): nat {
    if s.passes != 1 then (if s.passes == 0 then 0 else |s.records|)
    else
      match s.place
      case Submitting(i) => i
      case Transmitting(i) => i + 1
      case Confirming(i) => i + 1
      case _ => |s.records|
  }

  ghost predicate Running(s: State, limit: nat)
    requires !s.place.Returned?
  {
    var n, i := |s.records|, Behind(s.place, |s.records|);
    && (s.place.Transmitting? || s.place.Confirming? ==> i < n)
    && i <= n
    && (s.passes == 0 ==> s.place.Head? && s.tpuLog == [])
    && (s.place.Head? && s.passes > 0 ==> |s.tpuLog| >= s.passes)
    && |s.rpcLog| == Submitted(s)
    && (forall j | 0 <= j < n :: s.records[j].sig.Some? <==> j < |s.rpcLog|)
    // time spent and work done in this pass
    && s.clock >= PAUSE * |s.tpuLog|
    && |s.tpuLog| <= MaxSends(limit, i) + (if s.place.Confirming? then 1 else 0)
    && s.passes <= MaxPasses(limit)
    && (|s.tpuLog| + 1 >= s.passes)
    && (s.place.Confirming? ==> |s.tpuLog| >= s.passes && !s.records[i].inSystem)
    && (!s.place.Head? && |s.tpuLog| < s.passes ==> exists j :: i <= j < n && !s.records[j].inSystem)
  }

  function MaxPasses(limit: nat): nat {
    100 * (limit + 1)
  }

  /** Sends before the current pass plus one for each record of the pass behind us. */
  function MaxSends(limit: nat, behind: nat): nat {
    MaxPasses(limit) - 1 + behind
  }

  ghost predicate Reachable(s: State, n: nat, limit: nat) {
    && |s.records| == n
    && s.confirmed == Count(s.records)
    && (forall j | 0 <= j < n :: s.records[j].inSystem ==> s.records[j].sig.Some?)
    && |s.rpcLog| <= n
    && (forall k | 0 <= k < |s.rpcLog| :: s.rpcLog[k] == k)
    && (forall k | k in s.tpuLog :: k < n)
    && |s.tpuLog| <= MaxSends(limit, n)
    && s.passes <= MaxPasses(limit)
    && (!s.place.Returned? ==> Running(s, limit))
    && (s.place.Returned? ==> ReturnedWell(s, n, limit))
  }

  /** What a returned state owes its caller. */
  ghost predicate ReturnedWell(s: State, n: nat, limit: nat)
    requires s.place.Returned? && |s.records| == n
  {
    match s.place.response
    case Ok(list) =>
      && list == SigList(s.records)
      && |s.rpcLog| == (if s.passes == 0 then 0 else n)
      && (forall j | 0 <= j < n :: s.records[j].sig.Some? <==> s.passes > 0)
      && (s.confirmed == n || s.clock / 1000 > limit)
    case Err(e) => e in {NoSignature, FailedToTransmit, ConfirmationCheckFailed}
    case Panic => false
  }

  lemma {:induction false} InitiallyReachable(s: State, n: nat, limit: nat)
    requires Initial(s, n)
    ensures Reachable(s, n, limit)
  {
    CountOfFresh(n);
  }

  lemma {:induction false} CountOfFresh(n: nat)
    ensures Count(seq(n, _ => Record(None, false))) == 0
  {
    if n > 0 {
      CountOfFresh(n - 1);
      assert seq(n, _ => Record(None, false))[1..] == seq(n - 1, _ => Record(None, false));
    }
  }

  lemma {:induction false} StepKeepsReachable(s: State, s': State, n: nat, limit: nat)
    requires Reachable(s, n, limit) && Step(limit, s, s')
    ensures Reachable(s', n, limit)
  {
    match s.place
    case Head => HeadStep(s, s', n, limit);
    case Submitting(i) => SubmittingStep(s, s', n, limit);
    case Transmitting(i) =>
    case Confirming(i) => ConfirmingStep(s, s', n, limit);
  }

  lemma {:induction false} HeadStep(s: State, s': State, n: nat, limit: nat)
    requires Reachable(s, n, limit) && Step(limit, s, s') && s.place.Head?
    ensures Reachable(s', n, limit)
  {
    CountBound(s.records);
    if s'.place.Submitting? {
      assert PAUSE * |s.tpuLog| < 1000 * (limit + 1);
      assert |s.tpuLog| <= MaxPasses(limit) - 1;
    }
  }

  lemma {:induction false} SubmittingStep(s: State, s': State, n: nat, limit: nat)
    requires Reachable(s, n, limit) && Step(limit, s, s') && s.place.Submitting?
    ensures Reachable(s', n, limit)
  {
    var i := s.place.at;
    if i < n && s'.records != s.records {
      CountUpdate(s.records, i, s'.records[i]);
    }
  }

  lemma {:induction false} ConfirmingStep(s: State, s': State, n: nat, limit: nat)
    requires Reachable(s, n, limit) && Step(limit, s, s') && s.place.Confirming?
    ensures Reachable(s', n, limit)
  {
    var i := s.place.at;
    if s'.records != s.records {
      CountUpdate(s.records, i, s'.records[i]);
    }
  }

  // ---------- what holds over whole runs ----------

  lemma {:induction false} RunReachable(run: seq<State>, n: nat, limit: nat, k: nat)
    requires IsRun(run, n, limit) && k < |run|
    ensures Reachable(run[k], n, limit)
  {
    if k == 0 {
      InitiallyReachable(run[0], n, limit);
    } else {
      RunReachable(run, n, limit, k - 1);
      assert StepAt(run, limit, k - 1);
      StepKeepsReachable(run[k - 1], run[k], n, limit);
    }
  }

  /** In every reachable state the counter is the number of confirmed records, a
      confirmed record has a signature, and the RPC node has seen the first transactions
      of the list, each once and in order. */
  lemma {:induction false} BooksAreKept(run: seq<State>, n: nat, limit: nat, k: nat)
    requires IsRun(run, n, limit) && k < |run|
    ensures var s := run[k];
            && |s.records| == n
            && s.confirmed == |(set j | 0 <= j < n && s.records[j].inSystem)|
            && (forall j | 0 <= j < n :: s.records[j].inSystem ==> s.records[j].sig.Some?)
            && |s.rpcLog| <= n && s.rpcLog == seq(|s.rpcLog|, i => i)
  {
    RunReachable(run, n, limit, k);
    CountIsCardinality(run[k].records);
  }

  lemma {:induction false} CountIsCardinality(records: seq<Record>)
    ensures Count(records) == |(set j | 0 <= j < |records| && records[j].inSystem)|
  {
    var n := |records|;
    var S := set j | 0 <= j < n && records[j].inSystem;
    if n == 0 {
      assert S == {};
    } else {
      var front := records[..n - 1];
      CountIsCardinality(front);
      var T := set j | 0 <= j < n - 1 && front[j].inSystem;
      assert S == if records[n - 1].inSystem then T + {n - 1} else T;
      CountSnoc(front, records[n - 1]);
      assert records == front + [records[n - 1]];
    }
  }

  lemma {:induction false} CountSnoc(front: seq<Record>, rec: Record)
    ensures Count(front + [rec]) == Count(front) + (if rec.inSystem then 1 else 0)
  {
    if front == [] {
      assert front + [rec] == [rec];
    } else {
      assert (front + [rec])[1..] == front[1..] + [rec];
      CountSnoc(front[1..], rec);
    }
  }

  /** The branch that reports a missing signature is never taken, and the sender itself
      never fails to deserialize once its loop has begun. */
  lemma {:induction false} SignatureIsAlwaysThere(run: seq<State>, n: nat, limit: nat, k: nat)
    requires IsRun(run, n, limit) && k < |run|
    ensures run[k].place != Returned(Err(FailedToGetSignature))
    ensures run[k].place != Returned(Err(FailedToDeserialize))
    ensures |run[k].records| == n
    ensures run[k].place.Confirming? ==> run[k].place.at < n && run[k].records[run[k].place.at].sig.Some?
  {
    RunReachable(run, n, limit, k);
  }

  /** What a later state owes an earlier one about transaction j: a signature once set
      stays, a confirmation is never taken back, the logs only grow, and once confirmed
      the transaction is not among the later transmissions. */
  ghost predicate Grown(s: State, t: State, j: nat)
    requires j < |s.records|
  {
    && |t.records| == |s.records|
    && (s.records[j].sig.Some? ==> t.records[j].sig == s.records[j].sig)
    && (s.records[j].inSystem ==> t.records[j].inSystem)
    && s.rpcLog <= t.rpcLog
    && s.tpuLog <= t.tpuLog
    && (s.records[j].inSystem ==> j !in t.tpuLog[|s.tpuLog|..])
  }

  lemma {:induction false} HistoryOnlyGrows(run: seq<State>, n: nat, limit: nat, a: nat, b: nat, j: nat)
    requires IsRun(run, n, limit) && a <= b < |run| && j < n
    ensures |run[a].records| == n && Grown(run[a], run[b], j)
    decreases b - a
  {
    RunReachable(run, n, limit, a);
    if a < b {
      HistoryOnlyGrows(run, n, limit, a, b - 1, j);
      RunStepGrows(run, n, limit, b - 1, j);
      GrownTransitive(run[a], run[b - 1], run[b], j);
    }
  }

  lemma {:induction false} RunStepGrows(run: seq<State>, n: nat, limit: nat, k: nat, j: nat)
    requires IsRun(run, n, limit) && k < |run| - 1 && j < n
    ensures |run[k].records| == n && Grown(run[k], run[k + 1], j)
  {
    RunReachable(run, n, limit, k);
    assert StepAt(run, limit, k);
    StepGrows(run[k], run[k + 1], n, limit, j);
  }

  lemma {:induction false} StepGrows(s: State, t: State, n: nat, limit: nat, j: nat)
    requires Reachable(s, n, limit) && Step(limit, s, t) && j < n
    ensures Grown(s, t, j)
  {
  }

  lemma {:induction false} GrownTransitive(s: State, t: State, u: State, j: nat)
    requires j < |s.records| && Grown(s, t, j) && Grown(t, u, j)
    ensures Grown(s, u, j)
  {
    assert u.tpuLog[|s.tpuLog|..] == t.tpuLog[|s.tpuLog|..] + u.tpuLog[|t.tpuLog|..];
  }

  /** Simple bounds on retransmission that follow from the pause and the age limit;
      BatchSenderBounds gives the exact ones. */
  lemma {:induction false} WorkIsBounded(run: seq<State>, n: nat, limit: nat, k: nat)
    requires IsRun(run, n, limit) && k < |run|
    ensures run[k].passes <= 100 * (limit + 1)
    ensures |run[k].tpuLog| <= 100 * (limit + 1) - 1 + n
    ensures |run[k].rpcLog| <= n
  {
    RunReachable(run, n, limit, k);
  }

  function StepsPerPass(n: nat): nat {
    3 * n + 2
  }

  function StepsOf(passes: nat, n: nat): nat {
    if passes == 0 then 0 else StepsPerPass(n) + StepsOf(passes - 1, n)
  }

  lemma {:induction false} StepsOfIsProduct(passes: nat, n: nat)
    ensures StepsOf(passes, n) == passes * StepsPerPass(n)
  {
    if passes > 0 {
      StepsOfIsProduct(passes - 1, n);
      assert passes * StepsPerPass(n) == (passes - 1) * StepsPerPass(n) + StepsPerPass(n);
    }
  }

  /** An upper bound on the number of steps left. */
  function StepsLeft(s: State, n: nat, limit: nat): int
    requires s.passes <= MaxPasses(limit)
  {
    var later := StepsOf(MaxPasses(limit) - s.passes, n);
    match s.place
    case Head => later + 1
    case Submitting(i) => later + 3 * (n - i) + 2
    case Transmitting(i) => later + 3 * (n - i) + 1
    case Confirming(i) => later + 3 * (n - i)
    case Returned(_) => later
  }

  lemma {:induction false} StepsLeftDecreases(s: State, s': State, n: nat, limit: nat)
    requires Reachable(s, n, limit) && Step(limit, s, s')
    ensures s'.passes <= MaxPasses(limit)
    ensures 0 <= StepsLeft(s', n, limit) < StepsLeft(s, n, limit)
  {
    StepKeepsReachable(s, s', n, limit);
  }

  /** Every run is finite: no environment keeps the sender going for longer. */
  lemma {:induction false} RunLengthBounded(run: seq<State>, n: nat, limit: nat, k: nat)
    requires IsRun(run, n, limit) && k < |run|
    ensures run[k].passes <= MaxPasses(limit) && StepsLeft(run[k], n, limit) >= 0
    ensures k + StepsLeft(run[k], n, limit) <= 100 * (limit + 1) * (3 * n + 2) + 1
  {
    if k == 0 {
      StepsOfIsProduct(MaxPasses(limit), n);
    } else {
      RunLengthBounded(run, n, limit, k - 1);
      RunReachable(run, n, limit, k - 1);
      assert StepAt(run, limit, k - 1);
      StepsLeftDecreases(run[k - 1], run[k], n, limit);
    }
  }

  /** ... and only returning ends it: any other reachable state has a next one. */
  lemma {:induction false} NeverStuck(run: seq<State>, n: nat, limit: nat) returns (s': State)
    requires IsRun(run, n, limit) && !run[|run| - 1].place.Returned?
    ensures Step(limit, run[|run| - 1], s')
  {
    var s := run[|run| - 1];
    RunReachable(run, n, limit, |run| - 1);
    match s.place
    case Head =>
      s' := if s.clock / 1000 <= limit && s.confirmed < n then s.(place := Submitting(0), passes := s.passes + 1)
            else s.(place := Returned(Ok(SigList(s.records))));
    case Submitting(i) =>
      s' := if i >= n then s.(place := Head)
            else if s.records[i].sig.Some? then s.(place := Transmitting(i))
            else s.(place := Returned(Err(NoSignature)), rpcLog := s.rpcLog + [i]);
    case Transmitting(i) =>
      s' := if s.records[i].inSystem then s.(place := Submitting(i + 1))
            else s.(place := Returned(Err(FailedToTransmit)), tpuLog := s.tpuLog + [i]);
    case Confirming(i) =>
      s' := s.(place := Submitting(i + 1));
  }

  lemma {:induction false} PassesOnlyGrow(run: seq<State>, n: nat, limit: nat, a: nat, b: nat)
    requires IsRun(run, n, limit) && a <= b < |run|
    ensures run[a].passes <= run[b].passes
    decreases b
  {
    if a < b {
      PassesOnlyGrow(run, n, limit, a, b - 1);
      assert StepAt(run, limit, b - 1);
    }
  }

  /** What an Ok answer means. If the first reading of the clock was within the limit,
      every transaction went to the RPC node exactly once, in order, and the answer lists
      its 64-byte signature at its own index. If not, nothing was sent and every entry is
      empty. Either everything is confirmed or the time is up. */
  lemma {:induction false} OkMeansAllSubmitted(run: seq<State>, n: nat, limit: nat, list: seq<seq<byte>>)
    requires IsRun(run, n, limit) && run[|run| - 1].place == Returned(Ok(list))
    ensures |run| > 1 && |list| == n
    ensures var s := run[|run| - 1];
            && |s.records| == n
            && (run[1].clock / 1000 <= limit ==>
                  && s.rpcLog == seq(n, i => i)
                  && forall i | 0 <= i < n :: |list[i]| == 64 && s.records[i].sig == Some(list[i]))
            && (run[1].clock / 1000 > limit ==>
                  && s.rpcLog == [] && s.tpuLog == []
                  && forall i | 0 <= i < n :: list[i] == [])
            && ((forall i | 0 <= i < n :: s.records[i].inSystem) || s.clock / 1000 > limit)
  {
    var last := |run| - 1;
    var s := run[last];
    RunReachable(run, n, limit, last);
    assert |run| > 1 && StepAt(run, limit, 0);
    PassesOnlyGrow(run, n, limit, 1, last);
    CountBound(s.records);
    if run[1].clock / 1000 > limit || n == 0 {
      ReturnIsFinal(run, n, limit, 1);
    }
  }

  /** ... and the second case does happen: for every list there is a run whose first reading
      is past the limit and whose answer is Ok, with nothing sent and every entry empty. */
  lemma {:induction false} OkWithNothingSent(n: nat, limit: nat) returns (run: seq<State>, list: seq<seq<byte>>)
    ensures IsRun(run, n, limit) && run[|run| - 1].place == Returned(Ok(list))
    ensures run[|run| - 1].rpcLog == [] && run[|run| - 1].tpuLog == []
    ensures |list| == n && forall i | 0 <= i < n :: list[i] == []
  {
    var s := State(seq(n, _ => Record(None, false)), 0, 0, Head, 0, [], []);
    list := SigList(s.records);
    var s' := s.(clock := 1000 * (limit + 1), place := Returned(Ok(list)));
    run := [s];
    ExtendRun(run, n, limit, s');
    run := run + [s'];
  }

  lemma {:induction false} ReturnIsFinal(run: seq<State>, n: nat, limit: nat, k: nat)
    requires IsRun(run, n, limit) && k < |run| && run[k].place.Returned?
    ensures k == |run| - 1
  {
    assert k < |run| - 1 ==> StepAt(run, limit, k);
  }
}
