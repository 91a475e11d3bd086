/** The lock operations along a run of the batch sender are those of its lock shape: the
    two models of `send_tx` describe the same function. */
module SendTxLocks {
  import opened LockScopes
  import opened LockHandlers
  import opened Sequences
  import S = BatchSender

  /** What one step of the sender does to the mutexes. The RPC guard of a submission ends
      with its block; the TPU guard lives until the lookup is over. */
  function StepInstrs(s: S.State, s': S.State): seq<Instr> {
    match s.place
    case Submitting(i) =>
      if i >= |s.records| || s.records[i].sig.Some? then []
      else if s'.place.Returned? then [Lock(Rpc), Try]
      else Submission(true)
    case Transmitting(i) =>
      if i >= |s.records| || s.records[i].inSystem then [] else [Lock(Tpu), Try]
    case Confirming(_) =>
      if s'.place.Returned? then [Lock(Rpc), Try] else [Lock(Rpc), Try, Unlock(Rpc), Unlock(Tpu)]
    case _ => []
  }

  function Trace(run: seq<S.State>): seq<Instr> {
    if |run| <= 1 then [] else Trace(run[..|run| - 1]) + StepInstrs(run[|run| - 2], run[|run| - 1])
  }

  function Submission(done: bool): seq<Instr> {
    if done then [Lock(Rpc), Try, Unlock(Rpc)] else []
  }

  function VisitInstrs(v: Visit): seq<Instr> {
    Submission(v.submits)
    + (if v.transmits then [Lock(Tpu), Try, Lock(Rpc), Try, Unlock(Rpc), Unlock(Tpu)] else [])
  }

  function Code(visits: seq<Visit>): seq<Instr> {
    if visits == [] then [] else VisitInstrs(visits[0]) + Code(visits[1..])
  }

  lemma {:induction false} CompiledSubmission(next: Block)
    ensures Compile(Guard(Rpc, Attempt(End), next)) == [Lock(Rpc), Try, Unlock(Rpc)] + Compile(next)
  {
    assert Compile(Attempt(End)) == [Try];
  }

  lemma {:induction false} CompiledTransmission(next: Block)
    ensures Compile(Guard(Tpu, Attempt(Guard(Rpc, Attempt(End), End)), next))
         == [Lock(Tpu), Try, Lock(Rpc), Try, Unlock(Rpc), Unlock(Tpu)] + Compile(next)
  {
    var lookup := Guard(Rpc, Attempt(End), End);
    CompiledSubmission(End);
    var inside := [Try, Lock(Rpc), Try, Unlock(Rpc)];
    assert Compile(Attempt(lookup)) == inside;
    assert [Lock(Tpu)] + inside + [Unlock(Tpu)] == [Lock(Tpu), Try, Lock(Rpc), Try, Unlock(Rpc), Unlock(Tpu)];
  }

  lemma {:induction false} CompiledVisit(v: Visit, next: Block)
    ensures Compile(VisitBlock(v, next)) == VisitInstrs(v) + Compile(next)
  {
    var transmit := VisitBlock(Visit(false, v.transmits), next);
    CompiledTransmission(next);
    CompiledSubmission(transmit);
  }

  lemma {:induction false} CodeIsCompiled(visits: seq<Visit>)
    ensures Compile(HandlerBody(SendTx(visits))) == Code(visits)
  {
    if visits != [] {
      CodeIsCompiled(visits[1..]);
      CompiledVisit(visits[0], SendTxBody(visits[1..]));
    }
  }

  /** One visit, spelled out: the submission under the RPC guard, then the transmission
      under the TPU guard with the lookup under the RPC guard inside it. */
  lemma {:induction false} SenderCode(v: Visit, visits: seq<Visit>)
    ensures Compile(HandlerBody(SendTx([]))) == []
    ensures Compile(HandlerBody(SendTx([v] + visits)))
         == (if v.submits then [Lock(Rpc), Try, Unlock(Rpc)] else [])
            + (if v.transmits then [Lock(Tpu), Try, Lock(Rpc), Try, Unlock(Rpc), Unlock(Tpu)] else [])
            + Compile(HandlerBody(SendTx(visits)))
  {
    assert ([v] + visits)[1..] == visits;
    CompiledVisit(v, SendTxBody(visits));
  }

  /** How often a mutex is locked. */
  function Locks(code: seq<Instr>, m: Mutex): nat {
    if code == [] then 0 else Locks(code[..|code| - 1], m) + (if code[|code| - 1] == Lock(m) then 1 else 0)
  }

  lemma {:induction false} LocksOfConcat(a: seq<Instr>, b: seq<Instr>, m: Mutex)
    ensures Locks(a + b, m) == Locks(a, m) + Locks(b, m)
  {
    if b == [] {
      assert a + b == a;
    } else {
      assert (a + b)[..|a + b| - 1] == a + b[..|b| - 1];
      LocksOfConcat(a, b[..|b| - 1], m);
    }
  }

  /** How many of the states reached come from a lookup. */
  function Lookups(run: seq<S.State>): nat {
    if |run| <= 1 then 0
    else Lookups(run[..|run| - 1]) + (if run[|run| - 2].place.Confirming? then 1 else 0)
  }

  /** The TPU mutex is locked once per transmission, the RPC mutex once per submission and
      once per lookup. */
  lemma {:induction false} LocksAreUsed(run: seq<S.State>, n: nat, limit: nat)
    requires S.IsRun(run, n, limit)
    ensures Locks(Trace(run), Tpu) == |run[|run| - 1].tpuLog|
    ensures Locks(Trace(run), Rpc) == |run[|run| - 1].rpcLog| + Lookups(run)
  {
    if |run| > 1 {
      var front, s, s' := run[..|run| - 1], run[|run| - 2], run[|run| - 1];
      S.FrontIsRun(run, n, limit);
      LocksAreUsed(front, n, limit);
      assert front[|front| - 1] == s;
      S.RunReachable(run, n, limit, |run| - 2);
      StepLocks(s, s', n, limit);
      LocksOfConcat(Trace(front), StepInstrs(s, s'), Tpu);
      LocksOfConcat(Trace(front), StepInstrs(s, s'), Rpc);
    }
  }

  lemma {:induction false} StepLocks(s: S.State, s': S.State, n: nat, limit: nat)
    requires S.Reachable(s, n, limit) && S.Step(limit, s, s')
    ensures Locks(StepInstrs(s, s'), Tpu) == |s'.tpuLog| - |s.tpuLog|
    ensures Locks(StepInstrs(s, s'), Rpc) == |s'.rpcLog| - |s.rpcLog| + if s.place.Confirming? then 1 else 0
  {
    LocksOfPieces(Tpu);
    LocksOfPieces(Rpc);
  }

  lemma {:induction false} LocksOfPieces(m: Mutex)
    ensures Locks([Lock(Rpc), Try], m) == Locks([Lock(Rpc), Try, Unlock(Rpc)], m) == if m == Rpc then 1 else 0
    ensures Locks([Lock(Tpu), Try], m) == if m == Tpu then 1 else 0
    ensures Locks([Lock(Rpc), Try, Unlock(Rpc), Unlock(Tpu)], m) == if m == Rpc then 1 else 0
  {
    var a, b := [Lock(Rpc), Try, Unlock(Rpc), Unlock(Tpu)], [Lock(Tpu), Try];
    assert a[..3] == [Lock(Rpc), Try, Unlock(Rpc)] && a[..3][..2] == [Lock(Rpc), Try];
    assert a[..3][..2][..1] == [Lock(Rpc)] && [Lock(Rpc)][..0] == [];
    assert b[..1] == [Lock(Tpu)] && [Lock(Tpu)][..0] == [];
  }

  lemma {:induction false} CodeSnoc(visits: seq<Visit>, v: Visit)
    ensures Code(visits + [v]) == Code(visits) + VisitInstrs(v)
  {
    if visits == [] {
      assert visits + [v] == [v];
      CodeStep([v]);
    } else {
      CodeSnoc(visits[1..], v);
      assert (visits + [v])[1..] == visits[1..] + [v];
      CodeStep(visits + [v]);
      Associative(VisitInstrs(visits[0]), Code(visits[1..]), VisitInstrs(v));
    }
  }

  lemma {:induction false} CodeStep(visits: seq<Visit>)
    requires visits != []
    ensures Code(visits) == VisitInstrs(visits[0]) + Code(visits[1..])
  {
  }

  /** The unfinished part of the visit the sender is in. */
  function Partial(p: S.Place, submitted: bool): seq<Instr> {
    match p
    case Transmitting(_) => Submission(submitted)
    case Confirming(_) => Submission(submitted) + [Lock(Tpu), Try]
    case _ => []
  }

  lemma {:induction false} TraceFollowsShape(run: seq<S.State>, n: nat, limit: nat)
    returns (done: seq<Visit>, submitted: bool)
    requires S.IsRun(run, n, limit)
    ensures var p := run[|run| - 1].place;
            if Failed(p) then Trace(run) <= Code(done)
            else Trace(run) == Code(done) + Partial(p, submitted)
  {
    if |run| == 1 {
      done, submitted := [], false;
    } else {
      var front := run[..|run| - 1];
      S.FrontIsRun(run, n, limit);
      done, submitted := TraceFollowsShape(front, n, limit);
      assert front[|front| - 1] == run[|run| - 2];
      done, submitted := StepFollowsShape(run[|run| - 2], run[|run| - 1], limit, Trace(front), done, submitted);
    }
  }

  ghost predicate Failed(p: S.Place) {
    p.Returned? && p.response.Err?
  }

  lemma {:induction false} StepFollowsShape(s: S.State, s': S.State, limit: nat, trace: seq<Instr>,
                                            done: seq<Visit>, submitted: bool)
    returns (done': seq<Visit>, submitted': bool)
    requires S.Step(limit, s, s') && trace == Code(done) + Partial(s.place, submitted)
    ensures var trace' := trace + StepInstrs(s, s');
            if Failed(s'.place) then trace' <= Code(done')
            else trace' == Code(done') + Partial(s'.place, submitted')
  {
    done', submitted' := done, submitted;
    match s.place
    case Head =>
    case Submitting(i) =>
      done', submitted' := SubmittingFollowsShape(s, s', limit, done);
    case Transmitting(i) =>
      done' := TransmittingFollowsShape(s, s', limit, done, submitted);
    case Confirming(i) =>
      done' := ConfirmingFollowsShape(s, s', limit, done, submitted);
  }

  lemma {:induction false} SubmittingFollowsShape(s: S.State, s': S.State, limit: nat, done: seq<Visit>)
    returns (done': seq<Visit>, submitted: bool)
    requires S.Step(limit, s, s') && s.place.Submitting?
    ensures var trace' := Code(done) + StepInstrs(s, s');
            if Failed(s'.place) then trace' <= Code(done')
            else trace' == Code(done') + Partial(s'.place, submitted)
  {
    done', submitted := done, s.place.at < |s.records| && s.records[s.place.at].sig.None?;
    if Failed(s'.place) {
      done' := EndVisit(done, Visit(true, false), [Lock(Rpc), Try], [Unlock(Rpc)]);
    }
  }

  lemma {:induction false} TransmittingFollowsShape(s: S.State, s': S.State, limit: nat, done: seq<Visit>,
      submitted: bool)
    returns (done': seq<Visit>)
    requires S.Step(limit, s, s') && s.place.Transmitting?
    ensures var trace' := Code(done) + Submission(submitted) + StepInstrs(s, s');
            if Failed(s'.place) then trace' <= Code(done')
            else trace' == Code(done') + Partial(s'.place, submitted)
  {
    done' := done;
    var first := Submission(submitted);
    if Failed(s'.place) {
      assert Code(done) + (first + [Lock(Tpu), Try]) == Code(done) + first + [Lock(Tpu), Try];
      done' := EndVisit(done, Visit(submitted, true), first + [Lock(Tpu), Try],
                        [Lock(Rpc), Try, Unlock(Rpc), Unlock(Tpu)]);
    } else if s'.place.Submitting? {
      done' := EndVisit(done, Visit(submitted, false), first, []);
    } else {
      assert Code(done) + first + [Lock(Tpu), Try] == Code(done) + (first + [Lock(Tpu), Try]);
    }
  }

  lemma {:induction false} ConfirmingFollowsShape(s: S.State, s': S.State, limit: nat, done: seq<Visit>,
      submitted: bool)
    returns (done': seq<Visit>)
    requires S.Step(limit, s, s') && s.place.Confirming?
    ensures var trace' := Code(done) + (Submission(submitted) + [Lock(Tpu), Try]) + StepInstrs(s, s');
            if Failed(s'.place) then trace' <= Code(done')
            else trace' == Code(done') + Partial(s'.place, submitted)
  {
    var first := Submission(submitted) + [Lock(Tpu), Try] + StepInstrs(s, s');
    assert Code(done) + first == Code(done) + (Submission(submitted) + [Lock(Tpu), Try]) + StepInstrs(s, s');
    if Failed(s'.place) {
      done' := EndVisit(done, Visit(submitted, true), first, [Unlock(Rpc), Unlock(Tpu)]);
    } else {
      done' := EndVisit(done, Visit(submitted, true), first, []);
    }
  }

  /** A visit ends, after all of its operations or after the first of them. */
  lemma {:induction false} EndVisit(done: seq<Visit>, v: Visit, first: seq<Instr>, rest: seq<Instr>)
    returns (done': seq<Visit>)
    requires VisitInstrs(v) == first + rest
    ensures Code(done) + first <= Code(done')
    ensures rest == [] ==> Code(done) + first == Code(done')
  {
    done' := done + [v];
    CodeSnoc(done, v);
  }

  lemma {:induction false} SenderVisits(run: seq<S.State>, n: nat, limit: nat) returns (visits: seq<Visit>)
    requires S.IsRun(run, n, limit)
    ensures Trace(run) <= Code(visits)
    ensures run[|run| - 1].place.Returned? && run[|run| - 1].place.response.Ok? ==> Trace(run) == Code(visits)
  {
    var submitted;
    visits, submitted := TraceFollowsShape(run, n, limit);
    visits := FinishVisit(run[|run| - 1].place, Trace(run), visits, submitted);
  }

  lemma {:induction false} FinishVisit(p: S.Place, trace: seq<Instr>, done: seq<Visit>, submitted: bool)
    returns (visits: seq<Visit>)
    requires if Failed(p) then trace <= Code(done) else trace == Code(done) + Partial(p, submitted)
    ensures trace <= Code(visits)
    ensures p.Returned? && p.response.Ok? ==> trace == Code(visits)
  {
    var v := Visit(submitted, true);
    if p.Transmitting? {
      visits := EndVisit(done, v, Submission(submitted), [Lock(Tpu), Try, Lock(Rpc), Try, Unlock(Rpc), Unlock(Tpu)]);
    } else if p.Confirming? {
      visits := EndVisit(done, v, Submission(submitted) + [Lock(Tpu), Try], [Lock(Rpc), Try, Unlock(Rpc), Unlock(Tpu)]);
    } else {
      visits := done;
    }
  }

  /** Along every run the sender performs a prefix of the code of `SendTx(visits)` for
      some visits, and all of it when it answers Ok; so the results on handlers apply to
      it in every environment. */
  lemma {:induction false} SenderHasItsLockShape(run: seq<S.State>, n: nat, limit: nat) returns (visits: seq<Visit>)
    requires S.IsRun(run, n, limit)
    ensures Trace(run) <= Compile(HandlerBody(SendTx(visits)))
    ensures run[|run| - 1].place.Returned? && run[|run| - 1].place.response.Ok? ==>
              Trace(run) == Compile(HandlerBody(SendTx(visits)))
  {
    visits := SenderVisits(run, n, limit);
    CodeIsCompiled(visits);
  }
}
