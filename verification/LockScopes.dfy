/** Handlers that share non-reentrant mutexes. A guard bound by `let` lives until the end
    of its block, so the nesting of blocks is the whole lock discipline. */
module LockScopes {

  datatype Mutex = Tpu | Rpc

  function Rank(m: Mutex): nat {
    if m == Tpu then 0 else 1
  }

  /** The lock-relevant shape of a function body. `Attempt` is anything that may fail and
      return early (an awaited call or a `?`); `Guard` binds a guard whose scope is
      `body`. */
  datatype Block =
    | End
    | Attempt(next: Block)
    | Guard(m: Mutex, body: Block, next: Block)

  function Then(a: Block, b: Block): Block {
    match a
    case End => b
    case Attempt(next) => Attempt(Then(next, b))
    case Guard(m, body, next) => Guard(m, body, Then(next, b))
  }

  datatype Instr = Lock(m: Mutex) | Unlock(m: Mutex) | Try

  function Compile(b: Block): seq<Instr> {
    match b
    case End => []
    case Attempt(next) => [Try] + Compile(next)
    case Guard(m, body, next) => [Lock(m)] + Compile(body) + [Unlock(m)] + Compile(next)
  }

  /** A running handler: what is left to do, the guards it owns in the order it took
      them, and whether it is on an early return. */
  datatype Task = Task(code: seq<Instr>, held: seq<Mutex>, failed: bool)

  type System = seq<Task>

  function Start(b: Block): Task {
    Task(Compile(b), [], false)
  }

  /** An early return drops the guards in reverse order. */
  function Unwind(held: seq<Mutex>): (code: seq<Instr>)
    ensures |code| == |held|
  {
    if held == [] then [] else [Unlock(held[|held| - 1])] + Unwind(held[..|held| - 1])
  }

  ghost predicate Free(ts: System, m: Mutex) {
    forall t | t in ts :: m !in t.held
  }

  ghost predicate Step(ts: System, i: nat, ts': System) {
    && i < |ts| && ts[i].code != []
    && var t := ts[i];
       match t.code[0]
       case Lock(m) =>
         Free(ts, m) && ts' == ts[i := Task(t.code[1..], t.held + [m], t.failed)]
       case Unlock(m) =>
         && t.held != [] && t.held[|t.held| - 1] == m
         && ts' == ts[i := Task(t.code[1..], t.held[..|t.held| - 1], t.failed)]
       case Try =>
         || ts' == ts[i := t.(code := t.code[1..])]
         || ts' == ts[i := Task(Unwind(t.held), t.held, true)]
  }

  ghost predicate Moves(ts: System, ts': System) {
    exists i: nat :: Step(ts, i, ts')
  }

  ghost predicate StepAt(run: seq<System>, k: nat)
    requires k < |run| - 1
  {
    Moves(run[k], run[k + 1])
  }

  ghost predicate IsRun(run: seq<System>) {
    run != [] && forall k | 0 <= k < |run| - 1 :: StepAt(run, k)
  }

  ghost predicate CanStep(ts: System) {
    exists i: nat, ts' :: Step(ts, i, ts')
  }

  predicate Finished(t: Task) {
    t.code == []
  }

  ghost predicate AllFinished(ts: System) {
    forall t | t in ts :: Finished(t)
  }

  /** Whatever the interleaving and the answers, the only way to come to rest is for
      everyone to finish. With RunsAreShort this means every run can only end that way. */
  ghost predicate AlwaysCompletes(ts: System) {
    forall run | IsRun(run) && run[0] == ts && !CanStep(run[|run| - 1]) :: AllFinished(run[|run| - 1])
  }

  lemma {:induction false} ExtendRun(run: seq<System>, i: nat, ts': System)
    requires IsRun(run) && Step(run[|run| - 1], i, ts')
    ensures IsRun(run + [ts'])
  {
    var run' := run + [ts'];
    forall k | 0 <= k < |run'| - 1
      ensures StepAt(run', k)
    {
      if k < |run| - 1 {
        assert StepAt(run, k);
        assert run'[k] == run[k] && run'[k + 1] == run[k + 1];
      } else {
        assert Step(run'[k], i, run'[k + 1]);
      }
    }
  }

  // ---------- disciplines a task keeps while it runs ----------

  /** Guards are dropped last-in first-out and none is left over. */
  predicate Scoped(code: seq<Instr>, held: seq<Mutex>) {
    if code == [] then held == []
    else
      match code[0]
      case Lock(m) => Scoped(code[1..], held + [m])
      case Unlock(m) => held != [] && held[|held| - 1] == m && Scoped(code[1..], held[..|held| - 1])
      case Try => Scoped(code[1..], held)
  }

  /** No mutex is requested while its own guard is alive. */
  predicate NoRelock(code: seq<Instr>, held: seq<Mutex>) {
    code != [] ==>
      match code[0]
      case Lock(m) => m !in held && NoRelock(code[1..], held + [m])
      case Unlock(_) => held != [] ==> NoRelock(code[1..], held[..|held| - 1])
      case Try => NoRelock(code[1..], held)
  }

  /** Every mutex requested ranks above the guards alive at that point. */
  predicate Ordered(code: seq<Instr>, held: seq<Mutex>) {
    code != [] ==>
      match code[0]
      case Lock(m) => (forall h | h in held :: Rank(h) < Rank(m)) && Ordered(code[1..], held + [m])
      case Unlock(_) => held != [] ==> Ordered(code[1..], held[..|held| - 1])
      case Try => Ordered(code[1..], held)
  }

  lemma {:induction false} CompiledIsScoped(b: Block, held: seq<Mutex>, rest: seq<Instr>)
    requires Scoped(rest, held)
    ensures Scoped(Compile(b) + rest, held)
    decreases b
  {
    match b
    case End =>
      assert Compile(b) + rest == rest;
    case Attempt(next) =>
      CompiledIsScoped(next, held, rest);
      assert (Compile(b) + rest)[1..] == Compile(next) + rest;
    case Guard(m, body, next) =>
      CompiledIsScoped(next, held, rest);
      var tail := [Unlock(m)] + (Compile(next) + rest);
      assert (held + [m])[..|held|] == held && tail[1..] == Compile(next) + rest;
      CompiledIsScoped(body, held + [m], tail);
      assert (Compile(b) + rest)[1..] == Compile(body) + tail;
  }

  lemma {:induction false} UnwindIsScoped(held: seq<Mutex>)
    ensures Scoped(Unwind(held), held) && NoRelock(Unwind(held), held) && Ordered(Unwind(held), held)
  {
    if held != [] {
      UnwindIsScoped(held[..|held| - 1]);
      assert Unwind(held)[1..] == Unwind(held[..|held| - 1]);
    }
  }

  lemma {:induction false} HeldFitsInCode(code: seq<Instr>, held: seq<Mutex>)
    requires Scoped(code, held)
    ensures |held| <= |code|
  {
    if code != [] {
      match code[0]
      case Lock(m) => HeldFitsInCode(code[1..], held + [m]);
      case Unlock(m) => HeldFitsInCode(code[1..], held[..|held| - 1]);
      case Try => HeldFitsInCode(code[1..], held);
    }
  }

  ghost predicate NoDuplicates(held: seq<Mutex>) {
    forall a, b | 0 <= a < b < |held| :: held[a] != held[b]
  }

  /** What every reachable system satisfies: scoped tasks, and each guard owned once. */
  ghost predicate Sound(ts: System) {
    && (forall t | t in ts :: Scoped(t.code, t.held) && NoDuplicates(t.held))
    && (forall t | t in ts :: t.failed ==> t.code == Unwind(t.held))
    && (forall i, j | 0 <= i < j < |ts| :: forall m | m in ts[i].held :: m !in ts[j].held)
  }

  ghost predicate Fresh(ts: System) {
    forall t | t in ts :: t.held == [] && !t.failed && Scoped(t.code, [])
  }

  lemma {:induction false} FreshIsSound(ts: System)
    requires Fresh(ts)
    ensures Sound(ts)
  {
  }

  lemma {:induction false} TaskStep(ts: System, i: nat, ts': System)
    requires Sound(ts) && Step(ts, i, ts')
    ensures |ts'| == |ts| && forall j | 0 <= j < |ts| && j != i :: ts'[j] == ts[j]
    ensures Scoped(ts'[i].code, ts'[i].held) && NoDuplicates(ts'[i].held)
    ensures ts'[i].failed ==> ts'[i].code == Unwind(ts'[i].held)
    ensures |ts'[i].code| < |ts[i].code|
    ensures forall m | m in ts'[i].held :: m in ts[i].held || Free(ts, m)
    ensures Finished(ts'[i]) ==> ts'[i].held == []
  {
    var t := ts[i];
    assert t in ts;
    UnwindIsScoped(t.held);
    assert t.failed ==> t.code[1..] == Unwind(t.held[..|t.held| - 1]);
    if t.code[0].Try? {
      HeldFitsInCode(t.code[1..], t.held);
    }
  }

  lemma {:induction false} StepKeepsSound(ts: System, i: nat, ts': System)
    requires Sound(ts) && Step(ts, i, ts')
    ensures Sound(ts')
  {
    TaskStep(ts, i, ts');
    forall t | t in ts'
      ensures Scoped(t.code, t.held) && NoDuplicates(t.held)
      ensures t.failed ==> t.code == Unwind(t.held)
    {
      var j :| 0 <= j < |ts'| && ts'[j] == t;
      if j != i { assert t in ts; }
    }
    forall a, b, m | 0 <= a < b < |ts'| && m in ts'[a].held
      ensures m !in ts'[b].held
    {
      assert ts[a] in ts && ts[b] in ts;
      assert m in ts[a].held || Free(ts, m);
      assert m in ts'[b].held ==> m in ts[b].held || Free(ts, m);
    }
  }

  /** Mutual exclusion along every run, early returns included: nobody owns a guard twice,
      no two tasks own the same one, and whoever is done owns none. */
  lemma {:induction false} GuardsAreExclusive(run: seq<System>, k: nat)
    requires IsRun(run) && Fresh(run[0]) && k < |run|
    ensures Sound(run[k]) && |run[k]| == |run[0]|
    ensures forall t | t in run[k] && Finished(t) :: t.held == []
  {
    if k == 0 {
      FreshIsSound(run[0]);
    } else {
      GuardsAreExclusive(run, k - 1);
      assert StepAt(run, k - 1);
      var i: nat :| Step(run[k - 1], i, run[k]);
      TaskStep(run[k - 1], i, run[k]);
      StepKeepsSound(run[k - 1], i, run[k]);
    }
  }

  lemma {:induction false} StepOfRun(run: seq<System>, k: nat) returns (i: nat)
    requires IsRun(run) && Fresh(run[0]) && k < |run| - 1
    ensures Sound(run[k]) && |run[k]| == |run[0]| && Step(run[k], i, run[k + 1])
  {
    GuardsAreExclusive(run, k);
    assert StepAt(run, k);
    i :| Step(run[k], i, run[k + 1]);
  }

  /** After an error a task only drops guards: it never waits again. */
  lemma {:induction false} FailedTaskNeverWaits(run: seq<System>, k: nat, i: nat)
    requires IsRun(run) && Fresh(run[0]) && k < |run| && i < |run[k]|
    requires run[k][i].failed && !Finished(run[k][i])
    ensures exists ts' :: Step(run[k], i, ts')
  {
    GuardsAreExclusive(run, k);
    var t := run[k][i];
    assert t in run[k];
    assert Step(run[k], i, run[k][i := Task(t.code[1..], t.held[..|t.held| - 1], t.failed)]);
  }

  /** What can go wrong does in some run: from every state in which a task is about to
      attempt something the run extends so that this task has returned early, done and
      without a guard, and nobody else has moved. */
  lemma {:induction false} EarlyReturnHappens(run: seq<System>, i: nat) returns (run': seq<System>)
    requires IsRun(run) && Fresh(run[0])
    requires var s := run[|run| - 1]; i < |s| && s[i].code != [] && s[i].code[0] == Try
    ensures IsRun(run') && run < run' && |run'[|run| - 1]| == |run[0]|
    ensures var s, s' := run[|run| - 1], run'[|run'| - 1];
            && |s'| == |s| && s'[i] == Task([], [], true)
            && forall j | 0 <= j < |s| && j != i :: s'[j] == s[j]
  {
    var last := |run| - 1;
    GuardsAreExclusive(run, last);
    var s := run[last];
    var s' := s[i := Task(Unwind(s[i].held), s[i].held, true)];
    ExtendRun(run, i, s');
    run' := Unwound(run + [s'], i);
  }

  /** ... and what can go well does. */
  lemma {:induction false} AttemptSucceeds(run: seq<System>, i: nat)
    requires IsRun(run)
    requires var s := run[|run| - 1]; i < |s| && s[i].code != [] && s[i].code[0] == Try
    ensures var s := run[|run| - 1]; IsRun(run + [s[i := Task(s[i].code[1..], s[i].held, s[i].failed)]])
  {
    var s := run[|run| - 1];
    ExtendRun(run, i, s[i := s[i].(code := s[i].code[1..])]);
  }

  lemma {:induction false} Unwound(run: seq<System>, i: nat) returns (run': seq<System>)
    requires IsRun(run)
    requires var s := run[|run| - 1]; i < |s| && s[i].failed && s[i].code == Unwind(s[i].held)
    ensures IsRun(run') && run <= run'
    ensures var s, s' := run[|run| - 1], run'[|run'| - 1];
            && |s'| == |s| && s'[i] == Task([], [], true)
            && forall j | 0 <= j < |s| && j != i :: s'[j] == s[j]
    decreases |run[|run| - 1][i].held|
  {
    var s := run[|run| - 1];
    var held := s[i].held;
    if held == [] {
      run' := run;
    } else {
      var rest := held[..|held| - 1];
      assert Unwind(held)[1..] == Unwind(rest);
      var s' := s[i := Task(Unwind(rest), rest, true)];
      ExtendRun(run, i, s');
      run' := Unwound(run + [s'], i);
    }
  }

  // ---------- every run is short ----------

  function Work(ts: System): nat {
    if ts == [] then 0 else |ts[0].code| + Work(ts[1..])
  }

  lemma {:induction false} WorkUpdate(ts: System, i: nat, t: Task)
    requires i < |ts|
    ensures Work(ts[i := t]) == Work(ts) - |ts[i].code| + |t.code|
  {
    if i == 0 {
      assert ts[i := t][1..] == ts[1..];
    } else {
      assert ts[i := t][1..] == ts[1..][i - 1 := t];
      WorkUpdate(ts[1..], i - 1, t);
    }
  }

  /** The work left falls with every step, whoever takes it and however calls end. */
  lemma {:induction false} RunsAreShort(run: seq<System>, k: nat)
    requires IsRun(run) && Sound(run[0]) && k < |run|
    ensures Sound(run[k]) && |run[k]| == |run[0]| && k + Work(run[k]) <= Work(run[0])
  {
    if k > 0 {
      RunsAreShort(run, k - 1);
      assert StepAt(run, k - 1);
      var i: nat :| Step(run[k - 1], i, run[k]);
      TaskStep(run[k - 1], i, run[k]);
      StepKeepsSound(run[k - 1], i, run[k]);
      assert run[k] == run[k - 1][i := run[k][i]];
      WorkUpdate(run[k - 1], i, run[k][i]);
    }
  }

  /** Any run can be continued until nothing moves. */
  lemma {:induction false} RunToRest(run: seq<System>) returns (run': seq<System>)
    requires IsRun(run) && Sound(run[0])
    ensures IsRun(run') && run <= run' && !CanStep(run'[|run'| - 1])
    decreases Work(run[0]) + 1 - |run|
  {
    RunsAreShort(run, |run| - 1);
    if CanStep(run[|run| - 1]) {
      var i: nat, ts' :| Step(run[|run| - 1], i, ts');
      ExtendRun(run, i, ts');
      run' := RunToRest(run + [ts']);
    } else {
      run' := run;
    }
  }

  // ---------- ordered acquisition ----------

  ghost predicate OrderedSystem(ts: System) {
    Sound(ts) && forall t | t in ts :: Ordered(t.code, t.held)
  }

  lemma {:induction false} OrderIsKept(run: seq<System>, k: nat)
    requires IsRun(run) && OrderedSystem(run[0]) && k < |run|
    ensures OrderedSystem(run[k])
  {
    if k > 0 {
      OrderIsKept(run, k - 1);
      assert StepAt(run, k - 1);
      var i: nat :| Step(run[k - 1], i, run[k]);
      StepKeepsOrder(run[k - 1], i, run[k]);
    }
  }

  lemma {:induction false} StepKeepsOrder(ts: System, i: nat, ts': System)
    requires OrderedSystem(ts) && Step(ts, i, ts')
    ensures OrderedSystem(ts')
  {
    StepKeepsSound(ts, i, ts');
    TaskStep(ts, i, ts');
    assert ts[i] in ts;
    UnwindIsScoped(ts[i].held);
    forall t | t in ts'
      ensures Ordered(t.code, t.held)
    {
      var j :| 0 <= j < |ts'| && ts'[j] == t;
      if j != i { assert t in ts; }
    }
  }

  /** Task i waits for a guard that task j owns. */
  ghost predicate WaitsFor(ts: System, i: nat, j: nat) {
    && i < |ts| && j < |ts|
    && ts[i].code != [] && ts[i].code[0].Lock?
    && ts[i].code[0].m in ts[j].held
  }

  ghost predicate WaitPath(ts: System, path: seq<nat>) {
    |path| >= 2 && forall k | 0 <= k < |path| - 1 :: WaitsAt(ts, path, k)
  }

  ghost predicate WaitsAt(ts: System, path: seq<nat>, k: nat)
    requires k < |path| - 1
  {
    WaitsFor(ts, path[k], path[k + 1])
  }

  lemma {:induction false} WantedRankRises(ts: System, path: seq<nat>, k: nat)
    requires OrderedSystem(ts) && WaitPath(ts, path) && k < |path| - 1
    ensures WaitsAt(ts, path, 0) && WaitsAt(ts, path, k)
    ensures Rank(ts[path[0]].code[0].m) <= Rank(ts[path[k]].code[0].m)
  {
    assert WaitsAt(ts, path, k);
    if k > 0 {
      WantedRankRises(ts, path, k - 1);
      assert ts[path[k]] in ts;
    }
  }

  /** Nobody waits, directly or through others, for itself. */
  lemma {:induction false} WaitForIsAcyclic(ts: System, path: seq<nat>)
    requires OrderedSystem(ts) && WaitPath(ts, path)
    ensures path[0] != path[|path| - 1]
  {
    WantedRankRises(ts, path, |path| - 2);
    assert WaitsAt(ts, path, 0) && WaitsAt(ts, path, |path| - 2);
    assert ts[path[0]] in ts;
  }

  /** As long as somebody is unfinished, somebody can move. */
  lemma {:induction false} SomebodyMoves(ts: System, i: nat)
    requires OrderedSystem(ts) && i < |ts| && !Finished(ts[i])
    ensures CanStep(ts)
    decreases if ts[i].code[0].Lock? then 2 - Rank(ts[i].code[0].m) else 0
  {
    var t := ts[i];
    assert t in ts;
    match t.code[0]
    case Unlock(m) =>
      assert Step(ts, i, ts[i := Task(t.code[1..], t.held[..|t.held| - 1], t.failed)]);
    case Try =>
      assert Step(ts, i, ts[i := t.(code := t.code[1..])]);
    case Lock(m) =>
      if Free(ts, m) {
        assert Step(ts, i, ts[i := Task(t.code[1..], t.held + [m], t.failed)]);
      } else {
        var u :| u in ts && m in u.held;
        var j :| 0 <= j < |ts| && ts[j] == u;
        SomebodyMoves(ts, j);
      }
  }

  /** Ordered acquisition is enough: any number of such tasks always completes. */
  lemma {:induction false} OrderedCompletes(ts: System)
    requires OrderedSystem(ts)
    ensures AlwaysCompletes(ts)
  {
    forall run | IsRun(run) && run[0] == ts && !CanStep(run[|run| - 1])
      ensures AllFinished(run[|run| - 1])
    {
      var last := run[|run| - 1];
      OrderIsKept(run, |run| - 1);
      forall t | t in last
        ensures Finished(t)
      {
        var i :| 0 <= i < |last| && last[i] == t;
        if !Finished(last[i]) { SomebodyMoves(last, i); }
      }
    }
  }

  // ---------- a guard requested while it is alive ----------

  /** The task waits for a guard it owns itself. */
  ghost predicate SelfBlocked(t: Task) {
    t.code != [] && t.code[0].Lock? && t.code[0].m in t.held
  }

  /** Once there, it waits in every continuation, and nobody else ever gets that mutex. */
  lemma {:induction false} SelfBlockedForever(run: seq<System>, i: nat, k: nat)
    requires IsRun(run) && Sound(run[0]) && i < |run[0]| && SelfBlocked(run[0][i]) && k < |run|
    ensures Sound(run[k]) && |run[k]| == |run[0]| && run[k][i] == run[0][i]
    ensures forall j | 0 <= j < |run[k]| && j != i :: run[0][i].code[0].m !in run[k][j].held
  {
    if k > 0 {
      SelfBlockedForever(run, i, k - 1);
      assert StepAt(run, k - 1);
      var j: nat :| Step(run[k - 1], j, run[k]);
      StepKeepsSound(run[k - 1], j, run[k]);
      assert run[k - 1][i] in run[k - 1];
    }
    forall j | 0 <= j < |run[k]| && j != i
      ensures run[0][i].code[0].m !in run[k][j].held
    {
      var a, b := if i < j then i else j, if i < j then j else i;
      assert forall m | m in run[k][a].held :: m !in run[k][b].held;
    }
  }

  /** A task whose code relocks can only end through an early error, in any company. */
  lemma {:induction false} RelockNeverSucceeds(run: seq<System>, i: nat, k: nat)
    requires IsRun(run) && Fresh(run[0]) && i < |run[0]| && k < |run|
    requires !NoRelock(run[0][i].code, [])
    ensures |run[k]| == |run[0]|
    ensures run[k][i].failed || !NoRelock(run[k][i].code, run[k][i].held)
    ensures Finished(run[k][i]) ==> run[k][i].failed
  {
    assert run[0][i] in run[0];
    if k > 0 {
      RelockNeverSucceeds(run, i, k - 1);
      GuardsAreExclusive(run, k - 1);
      assert StepAt(run, k - 1);
      var j: nat :| Step(run[k - 1], j, run[k]);
      TaskStep(run[k - 1], j, run[k]);
      if j == i && !run[k][i].failed {
        StepKeepsRelock(run[k - 1], i, run[k]);
      }
    }
  }

  lemma {:induction false} StepKeepsRelock(ts: System, i: nat, ts': System)
    requires Sound(ts) && Step(ts, i, ts') && !ts'[i].failed
    requires !NoRelock(ts[i].code, ts[i].held)
    ensures !NoRelock(ts'[i].code, ts'[i].held)
  {
    assert ts[i] in ts;
  }

  // ---------- exactly when one task, or a mix of tasks, completes ----------

  ghost predicate OthersHoldNothing(ts: System, i: nat) {
    forall j | 0 <= j < |ts| && j != i :: ts[j].held == []
  }

  /** Scheduled first and with every call succeeding, a task that relocks runs into
      itself. */
  lemma {:induction false} ReachesRelock(run: seq<System>, i: nat) returns (run': seq<System>)
    requires IsRun(run)
    requires var s := run[|run| - 1];
             Sound(s) && i < |s| && OthersHoldNothing(s, i) && !NoRelock(s[i].code, s[i].held)
    ensures IsRun(run') && run <= run'
    ensures var s := run'[|run'| - 1]; |s| == |run[|run| - 1]| && SelfBlocked(s[i])
    decreases |run[|run| - 1][i].code|
  {
    var s := run[|run| - 1];
    if SelfBlocked(s[i]) {
      run' := run;
    } else {
      var s' := s[i := SuccessorAlone(s[i])];
      StepAlone(s, i);
      StepKeepsSound(s, i, s');
      ExtendRun(run, i, s');
      run' := ReachesRelock(run + [s'], i);
    }
  }

  lemma {:induction false} StepAlone(s: System, i: nat)
    requires Sound(s) && i < |s| && OthersHoldNothing(s, i) && s[i].code != [] && !SelfBlocked(s[i])
    ensures Step(s, i, s[i := SuccessorAlone(s[i])])
    ensures !NoRelock(s[i].code, s[i].held) ==>
              !NoRelock(SuccessorAlone(s[i]).code, SuccessorAlone(s[i]).held)
  {
    assert s[i] in s;
    if s[i].code[0].Lock? {
      forall t | t in s
        ensures s[i].code[0].m !in t.held
      {
        var j :| 0 <= j < |s| && s[j] == t;
      }
    }
  }

  function SuccessorAlone(t: Task): Task
    requires t.code != []
  {
    match t.code[0]
    case Lock(m) => Task(t.code[1..], t.held + [m], t.failed)
    case Unlock(_) => Task(t.code[1..], if t.held == [] then [] else t.held[..|t.held| - 1], t.failed)
    case Try => t.(code := t.code[1..])
  }

  lemma {:induction false} SoloKeepsNoRelock(run: seq<System>, k: nat)
    requires IsRun(run) && Sound(run[0]) && |run[0]| == 1 && k < |run|
    requires NoRelock(run[0][0].code, run[0][0].held)
    ensures Sound(run[k]) && |run[k]| == 1 && NoRelock(run[k][0].code, run[k][0].held)
  {
    if k > 0 {
      SoloKeepsNoRelock(run, k - 1);
      assert StepAt(run, k - 1);
      var i: nat :| Step(run[k - 1], i, run[k]);
      StepKeepsSound(run[k - 1], i, run[k]);
      UnwindIsScoped(run[k - 1][0].held);
    }
  }

  /** Read off the block structure: some guard is bound inside the scope of a guard of
      the same mutex. */
  predicate Rebinds(b: Block, alive: set<Mutex>) {
    match b
    case End => false
    case Attempt(next) => Rebinds(next, alive)
    case Guard(m, body, next) => m in alive || Rebinds(body, alive + {m}) || Rebinds(next, alive)
  }

  function Alive(held: seq<Mutex>): set<Mutex> {
    set m | m in held
  }

  lemma {:induction false} RebindsIsRelock(b: Block, held: seq<Mutex>, rest: seq<Instr>)
    ensures NoRelock(Compile(b) + rest, held) <==> !Rebinds(b, Alive(held)) && NoRelock(rest, held)
    decreases b
  {
    match b
    case End =>
      assert Compile(b) + rest == rest;
    case Attempt(next) =>
      RebindsIsRelock(next, held, rest);
      assert (Compile(b) + rest)[1..] == Compile(next) + rest;
    case Guard(m, body, next) =>
      var after := Compile(next) + rest;
      RebindsIsRelock(next, held, rest);
      RebindsIsRelock(body, held + [m], [Unlock(m)] + after);
      RelockInGuard(m, Compile(body), after, held);
      assert Compile(b) + rest == [Lock(m)] + Compile(body) + [Unlock(m)] + after;
      assert Alive(held + [m]) == Alive(held) + {m};
  }

  lemma {:induction false} RelockInGuard(m: Mutex, body: seq<Instr>, after: seq<Instr>, held: seq<Mutex>)
    ensures NoRelock([Lock(m)] + body + [Unlock(m)] + after, held)
       <==> m !in held && NoRelock(body + ([Unlock(m)] + after), held + [m])
    ensures NoRelock([Unlock(m)] + after, held + [m]) <==> NoRelock(after, held)
  {
    var code := [Lock(m)] + body + [Unlock(m)] + after;
    assert code[1..] == body + ([Unlock(m)] + after);
    assert ([Unlock(m)] + after)[1..] == after;
    assert (held + [m])[..|held|] == held;
  }

  lemma {:induction false} StartIsFresh(bs: seq<Block>)
    ensures Fresh(Launch(bs))
  {
    forall t | t in Launch(bs)
      ensures t.held == [] && !t.failed && Scoped(t.code, [])
    {
      var i :| 0 <= i < |bs| && Launch(bs)[i] == t;
      CompiledIsScoped(bs[i], [], []);
      assert Compile(bs[i]) + [] == Compile(bs[i]);
    }
  }

  /** Any number of function bodies, started together. */
  function Launch(bs: seq<Block>): System {
    seq(|bs|, i requires 0 <= i < |bs| => Start(bs[i]))
  }

  /** A function body completes on its own exactly when no guard is bound inside the
      scope of a guard of the same mutex. */
  lemma {:induction false} SoloCompletesIff(b: Block)
    ensures AlwaysCompletes(Launch([b])) <==> !Rebinds(b, {})
  {
    var ts := Launch([b]);
    StartIsFresh([b]);
    FreshIsSound(ts);
    RebindsIsRelock(b, [], []);
    assert Compile(b) + [] == Compile(b);
    assert Alive([]) == {};
    if NoRelock(Compile(b), []) {
      SoloWithoutRelock(ts);
    } else {
      RelockCanBlock(ts, 0);
    }
  }

  lemma {:induction false} SoloWithoutRelock(ts: System)
    requires Sound(ts) && |ts| == 1 && NoRelock(ts[0].code, ts[0].held)
    ensures AlwaysCompletes(ts)
  {
    forall run | IsRun(run) && run[0] == ts && !CanStep(run[|run| - 1])
      ensures AllFinished(run[|run| - 1])
    {
      SoloKeepsNoRelock(run, |run| - 1);
      SoloMoves(run[|run| - 1]);
    }
  }

  /** One task that relocks is enough to keep some run of any company from completing. */
  lemma {:induction false} RelockCanBlock(ts: System, i: nat)
    requires Sound(ts) && i < |ts| && OthersHoldNothing(ts, i) && !NoRelock(ts[i].code, ts[i].held)
    ensures !AlwaysCompletes(ts)
  {
    var run := ReachesRelock([ts], i);
    var rest := RunToRest(run);
    assert rest[|run| - 1] == run[|run| - 1];
    SelfBlockedInRest(rest, |run| - 1, i);
  }

  lemma {:induction false} SoloMoves(ts: System)
    requires |ts| == 1 && Sound(ts) && NoRelock(ts[0].code, ts[0].held) && !CanStep(ts)
    ensures AllFinished(ts)
  {
    var t := ts[0];
    assert t in ts;
    if t.code != [] {
      assert t.code[0].Lock? ==> Free(ts, t.code[0].m);
      assert Step(ts, 0, ts[0 := SuccessorAlone(t)]);
    }
  }

  /** A run that has come to rest after somebody blocked itself is not a completed one. */
  lemma {:induction false} SelfBlockedInRest(run: seq<System>, k: nat, i: nat)
    requires IsRun(run) && Sound(run[0]) && k < |run| && i < |run[k]| && SelfBlocked(run[k][i])
    ensures !AllFinished(run[|run| - 1])
  {
    RunsAreShort(run, k);
    var later := run[k..];
    forall j | 0 <= j < |later| - 1
      ensures StepAt(later, j)
    {
      assert StepAt(run, k + j);
      assert later[j] == run[k + j] && later[j + 1] == run[k + j + 1];
    }
    SelfBlockedForever(later, i, |later| - 1);
    assert later[|later| - 1][i] in later[|later| - 1];
  }
}
