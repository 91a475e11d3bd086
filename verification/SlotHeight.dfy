/** Workers of `consume_events_wrapper` raising one shared slot height under a lock. The
    read and the write of the assignment are separate steps. */
module SlotHeight {
  import opened Wrappers
  import opened Words

  datatype Phase =
    | Consuming              // the transaction is on its way
    | WaitingForLock         // it succeeded
    | Locked
    | HasRead(seen: u64)
    | HasWritten
    | Succeeded
    | Failed

  datatype Worker = Worker(slot: u64, phase: Phase)

  datatype Pool = Pool(height: u64, owner: Option<nat>, workers: seq<Worker>)

  function Max(a: u64, b: u64): u64 {
    if a >= b then a else b
  }

  predicate InLock(p: Phase) {
    p.Locked? || p.HasRead? || p.HasWritten?
  }

  function WithPhase(p: Pool, i: nat, phase: Phase): Pool
    requires i < |p.workers|
  {
    p.(workers := p.workers[i := p.workers[i].(phase := phase)])
  }

  ghost predicate Step(p: Pool, i: nat, p': Pool) {
    && i < |p.workers|
    && var w := p.workers[i];
       match w.phase
       case Consuming => p' == WithPhase(p, i, WaitingForLock) || p' == WithPhase(p, i, Failed)
       case WaitingForLock => p.owner.None? && p' == WithPhase(p, i, Locked).(owner := Some(i))
       case Locked => p' == WithPhase(p, i, HasRead(p.height))
       case HasRead(seen) => p' == WithPhase(p, i, HasWritten).(height := Max(w.slot, seen))
       case HasWritten => p' == WithPhase(p, i, Succeeded).(owner := None)
       case _ => false
  }

  ghost predicate Moves(p: Pool, p': Pool) {
    exists i: nat :: Step(p, i, p')
  }

  ghost predicate StepAt(run: seq<Pool>, k: nat)
    requires k < |run| - 1
  {
    Moves(run[k], run[k + 1])
  }

  ghost predicate IsRun(run: seq<Pool>) {
    && run != []
    && run[0].owner.None? && (forall w | w in run[0].workers :: w.phase.Consuming?)
    && forall k | 0 <= k < |run| - 1 :: StepAt(run, k)
  }

  /** The start height raised by every slot already written. */
  function Raised(start: u64, workers: seq<Worker>): u64 {
    if workers == [] then start
    else
      var w := workers[|workers| - 1];
      var rest := Raised(start, workers[..|workers| - 1]);
      if w.phase.HasWritten? || w.phase.Succeeded? then Max(w.slot, rest) else rest
  }

  lemma {:induction false} RaisedUpdate(start: u64, workers: seq<Worker>, i: nat, w: Worker)
    requires i < |workers| && w.slot == workers[i].slot
    requires workers[i].phase.HasWritten? || workers[i].phase.Succeeded? ==> w.phase.HasWritten? || w.phase.Succeeded?
    ensures Raised(start, workers[i := w])
         == if w.phase.HasWritten? || w.phase.Succeeded? then Max(w.slot, Raised(start, workers))
            else Raised(start, workers)
  {
    var front := workers[..|workers| - 1];
    if i == |workers| - 1 {
      assert workers[i := w][..|workers| - 1] == front;
    } else {
      assert workers[i := w][..|workers| - 1] == front[i := w];
      RaisedUpdate(start, front, i, w);
    }
  }

  ghost predicate Inv(p: Pool, start: u64) {
    && p.height == Raised(start, p.workers)
    && (p.owner.Some? ==> p.owner.value < |p.workers|)
    && (forall i: nat | i < |p.workers| :: InLock(p.workers[i].phase) <==> p.owner == Some(i))
    && (forall w | w in p.workers && w.phase.HasRead? :: w.phase.seen == p.height)
  }

  lemma {:induction false} StepKeepsInv(p: Pool, i: nat, p': Pool, start: u64)
    requires Inv(p, start) && Step(p, i, p')
    ensures Inv(p', start) && p'.height >= p.height
    ensures |p'.workers| == |p.workers|
    ensures forall j | 0 <= j < |p.workers| :: p'.workers[j].slot == p.workers[j].slot
  {
    assert p.workers[i] in p.workers;
    RaisedUpdate(start, p.workers, i, p'.workers[i]);
    RaisedAbsorbs(start, p.workers, i);
    forall w | w in p'.workers && w.phase.HasRead?
      ensures w.phase.seen == p'.height
    {
      var j :| 0 <= j < |p'.workers| && p'.workers[j] == w;
      if j != i { assert p.workers[j] in p.workers; }
    }
  }

  /** A slot already written does not raise the height again. */
  lemma {:induction false} RaisedAbsorbs(start: u64, workers: seq<Worker>, i: nat)
    requires i < |workers|
    ensures start <= Raised(start, workers)
    ensures workers[i].phase.HasWritten? || workers[i].phase.Succeeded? ==> workers[i].slot <= Raised(start, workers)
  {
    var front := workers[..|workers| - 1];
    if |workers| > 1 {
      RaisedAbsorbs(start, front, if i < |workers| - 1 then i else 0);
    }
  }

  /** Where the height comes from. */
  lemma {:induction false} RaisedIsAttained(start: u64, workers: seq<Worker>)
    ensures || Raised(start, workers) == start
            || exists w :: w in workers && (w.phase.HasWritten? || w.phase.Succeeded?)
                          && w.slot == Raised(start, workers)
  {
    if workers != [] {
      var front, last := workers[..|workers| - 1], workers[|workers| - 1];
      RaisedIsAttained(start, front);
      if Raised(start, workers) != start {
        if Raised(start, workers) == Raised(start, front) {
          var w :| w in front && (w.phase.HasWritten? || w.phase.Succeeded?) && w.slot == Raised(start, front);
          assert w in workers;
        } else {
          assert last in workers;
        }
      }
    }
  }

  lemma {:induction false} RunKeepsInv(run: seq<Pool>, k: nat)
    requires IsRun(run) && k < |run|
    ensures Inv(run[k], run[0].height) && |run[k].workers| == |run[0].workers|
    ensures forall j | 0 <= j < |run[0].workers| :: run[k].workers[j].slot == run[0].workers[j].slot
  {
    if k == 0 {
      NothingRaised(run[0].height, run[0].workers);
    } else {
      RunKeepsInv(run, k - 1);
      assert StepAt(run, k - 1);
      var i: nat :| Step(run[k - 1], i, run[k]);
      StepKeepsInv(run[k - 1], i, run[k], run[0].height);
    }
  }

  lemma {:induction false} NothingRaised(start: u64, workers: seq<Worker>)
    requires forall w | w in workers :: w.phase.Consuming?
    ensures Raised(start, workers) == start
  {
    if workers != [] {
      assert workers[|workers| - 1] in workers;
      NothingRaised(start, workers[..|workers| - 1]);
    }
  }

  /** The height never falls, however the workers interleave. */
  lemma {:induction false} HeightNeverFalls(run: seq<Pool>, a: nat, b: nat)
    requires IsRun(run) && a <= b < |run|
    ensures run[a].height <= run[b].height
    decreases b
  {
    if a < b {
      HeightNeverFalls(run, a, b - 1);
      RunKeepsInv(run, b - 1);
      assert StepAt(run, b - 1);
      var i: nat :| Step(run[b - 1], i, run[b]);
      StepKeepsInv(run[b - 1], i, run[b], run[0].height);
    }
  }

  predicate Done(w: Worker) {
    w.phase.Succeeded? || w.phase.Failed?
  }

  /** Nobody is ever stuck: in every reachable pool with an unfinished worker, that worker
      or the owner of the lock has a step. */
  lemma {:induction false} PoolNeverStuck(run: seq<Pool>, k: nat, i: nat) returns (j: nat, p': Pool)
    requires IsRun(run) && k < |run| && i < |run[k].workers| && !Done(run[k].workers[i])
    ensures Step(run[k], j, p') && (j == i || run[k].owner == Some(j))
  {
    RunKeepsInv(run, k);
    var p := run[k];
    j := if p.workers[i].phase.WaitingForLock? && p.owner.Some? then p.owner.value else i;
    var w := p.workers[j];
    match w.phase
    case Consuming => p' := WithPhase(p, j, WaitingForLock);
    case WaitingForLock => p' := WithPhase(p, j, Locked).(owner := Some(j));
    case Locked => p' := WithPhase(p, j, HasRead(p.height));
    case HasRead(seen) => p' := WithPhase(p, j, HasWritten).(height := Max(w.slot, seen));
    case HasWritten => p' := WithPhase(p, j, Succeeded).(owner := None);
  }

  /** The steps a worker has left at most. */
  function PhaseSteps(p: Phase): nat {
    match p
    case Consuming => 5
    case WaitingForLock => 4
    case Locked => 3
    case HasRead(_) => 2
    case HasWritten => 1
    case _ => 0
  }

  function StepsLeft(workers: seq<Worker>): nat {
    if workers == [] then 0 else PhaseSteps(workers[0].phase) + StepsLeft(workers[1..])
  }

  lemma {:induction false} StepsLeftUpdate(workers: seq<Worker>, i: nat, w: Worker)
    requires i < |workers|
    ensures StepsLeft(workers[i := w]) + PhaseSteps(workers[i].phase) == StepsLeft(workers) + PhaseSteps(w.phase)
  {
    if i == 0 {
      assert workers[i := w][1..] == workers[1..];
    } else {
      assert workers[i := w][1..] == workers[1..][i - 1 := w];
      StepsLeftUpdate(workers[1..], i - 1, w);
    }
  }

  lemma {:induction false} StepsLeftAtStart(workers: seq<Worker>)
    requires forall w | w in workers :: w.phase.Consuming?
    ensures StepsLeft(workers) == 5 * |workers|
  {
    if workers != [] {
      assert workers[0] in workers;
      StepsLeftAtStart(workers[1..]);
    }
  }

  lemma {:induction false} StepIsCounted(p: Pool, i: nat, p': Pool)
    requires Step(p, i, p')
    ensures StepsLeft(p'.workers) < StepsLeft(p.workers)
  {
    assert p'.workers == p.workers[i := p'.workers[i]];
    StepsLeftUpdate(p.workers, i, p'.workers[i]);
  }

  lemma {:induction false} StepsAreCounted(run: seq<Pool>, k: nat)
    requires IsRun(run) && k < |run|
    ensures k + StepsLeft(run[k].workers) <= 5 * |run[0].workers|
  {
    if k == 0 {
      StepsLeftAtStart(run[0].workers);
    } else {
      StepsAreCounted(run, k - 1);
      assert StepAt(run, k - 1);
      var i: nat :| Step(run[k - 1], i, run[k]);
      StepIsCounted(run[k - 1], i, run[k]);
    }
  }

  ghost predicate CanStep(p: Pool) {
    exists p' :: Moves(p, p')
  }

  /** So everybody gets done: no run has more than five steps per worker, and one can
      be continued exactly when some worker is unfinished. */
  lemma {:induction false} WorkersGetDone(run: seq<Pool>)
    requires IsRun(run)
    ensures |run| <= 5 * |run[0].workers| + 1
    ensures CanStep(run[|run| - 1]) <==> exists w | w in run[|run| - 1].workers :: !Done(w)
  {
    var last := |run| - 1;
    StepsAreCounted(run, last);
    if w :| w in run[last].workers && !Done(w) {
      var i: nat :| i < |run[last].workers| && run[last].workers[i] == w;
      var j, p' := PoolNeverStuck(run, last, i);
      assert Moves(run[last], p');
    }
    if CanStep(run[last]) {
      var p' :| Moves(run[last], p');
      var i: nat :| Step(run[last], i, p');
      assert run[last].workers[i] in run[last].workers && !Done(run[last].workers[i]);
    }
  }

  // ---------- every outcome is possible ----------

  lemma {:induction false} ExtendRun(run: seq<Pool>, i: nat, p': Pool)
    requires IsRun(run) && Step(run[|run| - 1], i, p')
    ensures IsRun(run + [p'])
  {
    var run' := run + [p'];
    forall k | 0 <= k < |run'| - 1
      ensures StepAt(run', k)
    {
      if k < |run| - 1 {
        assert StepAt(run, k);
        assert run'[k] == run[k] && run'[k + 1] == run[k + 1];
      } else {
        assert Step(run'[k], i, run'[k + 1]);
      }
    }
  }

  /** One worker runs from its start to its end while the lock is free and the others rest. */
  lemma {:induction false} RunWorker(run: seq<Pool>, i: nat, succeeds: bool) returns (run': seq<Pool>)
    requires IsRun(run)
    requires var p := run[|run| - 1];
             p.owner.None? && i < |p.workers| && p.workers[i].phase.Consuming?
    ensures IsRun(run') && run <= run'
    ensures var p, p' := run[|run| - 1], run'[|run'| - 1];
            && p'.owner.None?
            && p'.workers == p.workers[i := Worker(p.workers[i].slot, if succeeds then Succeeded else Failed)]
  {
    var p := run[|run| - 1];
    if succeeds {
      var p1 := WithPhase(p, i, WaitingForLock);
      ExtendRun(run, i, p1);
      var p2 := WithPhase(p1, i, Locked).(owner := Some(i));
      ExtendRun(run + [p1], i, p2);
      var p3 := WithPhase(p2, i, HasRead(p.height));
      ExtendRun(run + [p1] + [p2], i, p3);
      var p4 := WithPhase(p3, i, HasWritten).(height := Max(p.workers[i].slot, p.height));
      ExtendRun(run + [p1] + [p2] + [p3], i, p4);
      var p5 := WithPhase(p4, i, Succeeded).(owner := None);
      ExtendRun(run + [p1] + [p2] + [p3] + [p4], i, p5);
      run' := run + [p1] + [p2] + [p3] + [p4] + [p5];
    } else {
      var p1 := WithPhase(p, i, Failed);
      ExtendRun(run, i, p1);
      run' := run + [p1];
    }
  }

  /** For every start height, all slots and every choice of workers there is a run that
      ends with exactly those succeeded and all others failed. */
  lemma {:induction false} AnySetSucceeds(start: u64, slots: seq<u64>, chosen: set<nat>) returns (run: seq<Pool>)
    ensures IsRun(run)
    ensures run[0] == Pool(start, None, seq(|slots|, i requires 0 <= i < |slots| => Worker(slots[i], Consuming)))
    ensures run[|run| - 1].workers
         == seq(|slots|, i requires 0 <= i < |slots| =>
              Worker(slots[i], if i in chosen then Succeeded else Failed))
  {
    var idle := seq(|slots|, i requires 0 <= i < |slots| => Worker(slots[i], Consuming));
    run := [Pool(start, None, idle)];
    assert idle == Outcomes(slots, chosen, 0);
    for k := 0 to |slots|
      invariant IsRun(run) && run[0] == Pool(start, None, idle)
      invariant run[|run| - 1].owner.None? && run[|run| - 1].workers == Outcomes(slots, chosen, k)
    {
      run := RunWorker(run, k, k in chosen);
      assert run[|run| - 1].workers == Outcomes(slots, chosen, k + 1);
    }
  }

  /** The first k workers are done. */
  function Outcomes(slots: seq<u64>, chosen: set<nat>, k: nat): seq<Worker> {
    seq(|slots|, i requires 0 <= i < |slots| =>
      Worker(slots[i], if i >= k then Consuming else if i in chosen then Succeeded else Failed))
  }

  // ---------- the height at the end ----------

  /** When all are done it is the maximum of where it started and the slots of the
      workers that succeeded: no update is lost, no failure counts. */
  lemma {:induction false} FinalHeightIsMaximum(run: seq<Pool>)
    requires IsRun(run)
    requires forall w | w in run[|run| - 1].workers :: Done(w)
    ensures |run[|run| - 1].workers| == |run[0].workers|
    ensures forall i | 0 <= i < |run[0].workers| :: run[|run| - 1].workers[i].slot == run[0].workers[i].slot
    ensures var p := run[|run| - 1];
            && p.height >= run[0].height
            && (forall w | w in p.workers && w.phase.Succeeded? :: w.slot <= p.height)
            && (p.height == run[0].height
                || exists w :: w in p.workers && w.phase.Succeeded? && w.slot == p.height)
  {
    var last := |run| - 1;
    var p := run[last];
    RunKeepsInv(run, last);
    HeightNeverFalls(run, 0, last);
    RaisedIsAttained(run[0].height, p.workers);
    if w :| w in p.workers && (w.phase.HasWritten? || w.phase.Succeeded?) && w.slot == p.height {
      assert Done(w);
    }
    forall w | w in p.workers && w.phase.Succeeded?
      ensures w.slot <= p.height
    {
      var i :| 0 <= i < |p.workers| && p.workers[i] == w;
      RaisedAbsorbs(run[0].height, p.workers, i);
    }
  }
}
