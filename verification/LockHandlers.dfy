/** The lock shapes of the functions that reach the shared clients, and of the handlers
    of the Broadcast service. */
module LockHandlers {
  import opened LockScopes

  /** A guard on the RPC client around one awaited call. */
  function RpcCall(): Block {
    Guard(Rpc, Attempt(End), End)
  }

  /** Library functions of rpcnb.rs and util.rs that lock the RPC client. */
  datatype LibraryFunction =
    | CreateAccountRentExempt
    | CreateTokenAccount
    | CreateTokenAccountInstructions
    | NewMint
    | CreateAndInitMint
    | GetMinimumBalance
    | GetLatestBlockhash
    | MintToNewAccount
    | Transfer
    | SendTxn
    | SimulateTransaction
    | GetTokenAccount
    | UtilInitializeTokenAccount
    | UtilMintToExistingAccount
    | UtilCreateAccount
    | UtilSendTxn

  /** `Body` follows each function with its callees in place. Where the guard is bound in
      the outermost block of a function, everything after it is its scope. */
  function Body(f: LibraryFunction): Block {
    match f
    case GetMinimumBalance => RpcCall()
    case GetLatestBlockhash => RpcCall()
    case SendTxn => RpcCall()
    case SimulateTransaction => RpcCall()
    // the query, an account that is there, and its decoding
    case GetTokenAccount => Guard(Rpc, Attempt(Attempt(Attempt(End))), End)
    // the rent query, then the fallible instruction builder, under one guard
    case CreateTokenAccountInstructions => Guard(Rpc, Attempt(Attempt(End)), End)
    case CreateTokenAccount => Guard(Rpc, Attempt(Attempt(End)), HashAndSend())
    // the guard of the rent query is still alive when these ask for the block hash
    case CreateAccountRentExempt => Guard(Rpc, Attempt(HashAndSend()), End)
    case CreateAndInitMint => Guard(Rpc, Attempt(Attempt(HashAndSend())), End)
    // a fresh key, then create_and_init_mint(..).await?
    case NewMint => Guard(Rpc, Attempt(Attempt(HashAndSend())), End)
    // a block of its own for the rent query; then two fallible builders
    case MintToNewAccount => Guard(Rpc, Attempt(End), Attempt(Attempt(HashAndSend())))
    case Transfer => Attempt(HashAndSend())
    case UtilSendTxn => SendAndConfirm()
    case UtilInitializeTokenAccount => Then(RpcCall(), Attempt(Then(RpcCall(), SendAndConfirm())))
    case UtilMintToExistingAccount => Attempt(Then(RpcCall(), SendAndConfirm()))
    case UtilCreateAccount => Then(RpcCall(), Attempt(HashAndSend()))
  }

  /** `get_latest_blockhash(..).await?` followed by `send_txn(..).await?`. */
  function HashAndSend(): Block {
    Then(RpcCall(), RpcCall())
  }

  /** Two blocks: one for sending, one for the confirmation query and its answer. */
  function SendAndConfirm(): Block {
    Then(RpcCall(), Guard(Rpc, Attempt(Attempt(End)), End))
  }

  /** The lock operations and fallible steps of each function when nothing fails. */
  lemma {:induction false} FunctionCode(f: LibraryFunction)
    ensures Compile(Body(f)) ==
      match f
      case CreateAccountRentExempt =>
        [Lock(Rpc), Try, Lock(Rpc), Try, Unlock(Rpc), Lock(Rpc), Try, Unlock(Rpc), Unlock(Rpc)]
      case CreateTokenAccount =>
        [Lock(Rpc), Try, Try, Unlock(Rpc), Lock(Rpc), Try, Unlock(Rpc), Lock(Rpc), Try, Unlock(Rpc)]
      case CreateTokenAccountInstructions => [Lock(Rpc), Try, Try, Unlock(Rpc)]
      case NewMint =>
        [Lock(Rpc), Try, Try, Lock(Rpc), Try, Unlock(Rpc), Lock(Rpc), Try, Unlock(Rpc), Unlock(Rpc)]
      case CreateAndInitMint =>
        [Lock(Rpc), Try, Try, Lock(Rpc), Try, Unlock(Rpc), Lock(Rpc), Try, Unlock(Rpc), Unlock(Rpc)]
      case GetMinimumBalance => [Lock(Rpc), Try, Unlock(Rpc)]
      case GetLatestBlockhash => [Lock(Rpc), Try, Unlock(Rpc)]
      case MintToNewAccount =>
        [Lock(Rpc), Try, Unlock(Rpc), Try, Try, Lock(Rpc), Try, Unlock(Rpc), Lock(Rpc), Try, Unlock(Rpc)]
      case Transfer => [Try, Lock(Rpc), Try, Unlock(Rpc), Lock(Rpc), Try, Unlock(Rpc)]
      case SendTxn => [Lock(Rpc), Try, Unlock(Rpc)]
      case SimulateTransaction => [Lock(Rpc), Try, Unlock(Rpc)]
      case GetTokenAccount => [Lock(Rpc), Try, Try, Try, Unlock(Rpc)]
      case UtilInitializeTokenAccount =>
        [Lock(Rpc), Try, Unlock(Rpc), Try, Lock(Rpc), Try, Unlock(Rpc),
         Lock(Rpc), Try, Unlock(Rpc), Lock(Rpc), Try, Try, Unlock(Rpc)]
      case UtilMintToExistingAccount =>
        [Try, Lock(Rpc), Try, Unlock(Rpc), Lock(Rpc), Try, Unlock(Rpc), Lock(Rpc), Try, Try, Unlock(Rpc)]
      case UtilCreateAccount =>
        [Lock(Rpc), Try, Unlock(Rpc), Try, Lock(Rpc), Try, Unlock(Rpc), Lock(Rpc), Try, Unlock(Rpc)]
      case UtilSendTxn => [Lock(Rpc), Try, Unlock(Rpc), Lock(Rpc), Try, Try, Unlock(Rpc)]
  {
    CallCodes();
    NestedCodes();
    SequencedCodes();
    UtilInitializeCode();
    UtilMintCode();
    UtilCreateCode();
  }

  lemma {:induction false} NestedCodes()
    ensures Compile(Body(CreateAccountRentExempt))
         == [Lock(Rpc), Try, Lock(Rpc), Try, Unlock(Rpc), Lock(Rpc), Try, Unlock(Rpc), Unlock(Rpc)]
    ensures Compile(Body(NewMint)) == Compile(Body(CreateAndInitMint))
         == [Lock(Rpc), Try, Try, Lock(Rpc), Try, Unlock(Rpc), Lock(Rpc), Try, Unlock(Rpc), Unlock(Rpc)]
  {
    CallCodes();
    GuardCode(Attempt(HashAndSend()), End);
    GuardCode(Attempt(Attempt(HashAndSend())), End);
  }

  lemma {:induction false} SequencedCodes()
    ensures Compile(Body(CreateTokenAccount))
         == [Lock(Rpc), Try, Try, Unlock(Rpc), Lock(Rpc), Try, Unlock(Rpc), Lock(Rpc), Try, Unlock(Rpc)]
    ensures Compile(Body(MintToNewAccount))
         == [Lock(Rpc), Try, Unlock(Rpc), Try, Try, Lock(Rpc), Try, Unlock(Rpc), Lock(Rpc), Try, Unlock(Rpc)]
  {
    CallCodes();
    GuardCode(Attempt(Attempt(End)), HashAndSend());
    GuardCode(Attempt(End), Attempt(Attempt(HashAndSend())));
  }

  /** A call in front of something. */
  lemma {:induction false} CallThen(next: Block)
    ensures Compile(Then(RpcCall(), next)) == [Lock(Rpc), Try, Unlock(Rpc)] + Compile(next)
  {
    CallCodes();
    CompileThen(RpcCall(), next);
  }

  lemma {:induction false} UtilInitializeCode()
    ensures Compile(Body(UtilInitializeTokenAccount))
         == [Lock(Rpc), Try, Unlock(Rpc), Try, Lock(Rpc), Try, Unlock(Rpc),
             Lock(Rpc), Try, Unlock(Rpc), Lock(Rpc), Try, Try, Unlock(Rpc)]
  {
    UtilMintCode();
    CallThen(Attempt(Then(RpcCall(), SendAndConfirm())));
  }

  lemma {:induction false} UtilMintCode()
    ensures Compile(Body(UtilMintToExistingAccount))
         == [Try, Lock(Rpc), Try, Unlock(Rpc), Lock(Rpc), Try, Unlock(Rpc), Lock(Rpc), Try, Try, Unlock(Rpc)]
  {
    CallCodes();
    CallThen(SendAndConfirm());
  }

  lemma {:induction false} UtilCreateCode()
    ensures Compile(Body(UtilCreateAccount))
         == [Lock(Rpc), Try, Unlock(Rpc), Try, Lock(Rpc), Try, Unlock(Rpc), Lock(Rpc), Try, Unlock(Rpc)]
  {
    CallCodes();
    CallThen(Attempt(HashAndSend()));
  }

  lemma {:induction false} GuardCode(body: Block, next: Block)
    ensures Compile(Guard(Rpc, body, next)) == [Lock(Rpc)] + Compile(body) + [Unlock(Rpc)] + Compile(next)
  {
  }

  /** The pieces the functions are made of. */
  lemma {:induction false} CallCodes()
    ensures Compile(Attempt(End)) == [Try] && Compile(Attempt(Attempt(End))) == [Try, Try]
    ensures Compile(Attempt(Attempt(Attempt(End)))) == [Try, Try, Try]
    ensures Compile(RpcCall()) == [Lock(Rpc), Try, Unlock(Rpc)]
    ensures Compile(HashAndSend()) == [Lock(Rpc), Try, Unlock(Rpc), Lock(Rpc), Try, Unlock(Rpc)]
    ensures Compile(SendAndConfirm()) == [Lock(Rpc), Try, Unlock(Rpc), Lock(Rpc), Try, Try, Unlock(Rpc)]
    ensures Compile(Body(GetTokenAccount)) == [Lock(Rpc), Try, Try, Try, Unlock(Rpc)]
    ensures Compile(Attempt(HashAndSend())) == [Try] + Compile(HashAndSend())
    ensures Compile(Attempt(Attempt(HashAndSend()))) == [Try, Try] + Compile(HashAndSend())
  {
    ShortCodes();
    CompileThen(RpcCall(), RpcCall());
    CompileThen(RpcCall(), Guard(Rpc, Attempt(Attempt(End)), End));
    assert Compile(Attempt(Attempt(HashAndSend()))) == [Try] + Compile(Attempt(HashAndSend()));
  }

  lemma {:induction false} ShortCodes()
    ensures Compile(Attempt(End)) == [Try] && Compile(Attempt(Attempt(End))) == [Try, Try]
    ensures Compile(Attempt(Attempt(Attempt(End)))) == [Try, Try, Try]
    ensures Compile(RpcCall()) == [Lock(Rpc), Try, Unlock(Rpc)]
    ensures Compile(Guard(Rpc, Attempt(Attempt(End)), End)) == [Lock(Rpc), Try, Try, Unlock(Rpc)]
    ensures Compile(Body(GetTokenAccount)) == [Lock(Rpc), Try, Try, Try, Unlock(Rpc)]
  {
    assert Compile(Attempt(End)) == [Try] && Compile(Attempt(Attempt(End))) == [Try, Try];
  }

  lemma {:induction false} CompileThen(a: Block, b: Block)
    ensures Compile(Then(a, b)) == Compile(a) + Compile(b)
  {
    match a
    case End =>
    case Attempt(next) => CompileThen(next, b);
    case Guard(m, body, next) => CompileThen(next, b);
  }

  /** The functions that ask for the RPC client while they own it. */
  predicate AsksTwice(f: LibraryFunction) {
    f == CreateAccountRentExempt || f == CreateAndInitMint || f == NewMint
  }

  lemma {:induction false} RebindsThen(a: Block, b: Block, alive: set<Mutex>)
    ensures Rebinds(Then(a, b), alive) <==> Rebinds(a, alive) || Rebinds(b, alive)
  {
    match a
    case End =>
    case Attempt(next) => RebindsThen(next, b, alive);
    case Guard(m, body, next) => RebindsThen(next, b, alive);
  }

  lemma {:induction false} CallsRebind(alive: set<Mutex>)
    ensures Rebinds(RpcCall(), alive) <==> Rpc in alive
    ensures Rebinds(HashAndSend(), alive) <==> Rpc in alive
  {
    assert !Rebinds(Attempt(End), alive + {Rpc});
    RebindsThen(RpcCall(), RpcCall(), alive);
  }

  lemma {:induction false} FunctionRebinds(f: LibraryFunction)
    ensures Rebinds(Body(f), {}) <==> AsksTwice(f)
  {
    CallsRebind({});
    CallsRebind({} + {Rpc});
    var two := Attempt(Attempt(End));
    assert !Rebinds(Attempt(End), {} + {Rpc}) && !Rebinds(two, {} + {Rpc});
    assert Rebinds(Attempt(HashAndSend()), {} + {Rpc});
    assert !Rebinds(Attempt(HashAndSend()), {});
    RebindsThen(RpcCall(), Guard(Rpc, two, End), {});
    RebindsThen(RpcCall(), SendAndConfirm(), {});
    RebindsThen(RpcCall(), Attempt(Then(RpcCall(), SendAndConfirm())), {});
    RebindsThen(RpcCall(), Attempt(HashAndSend()), {});
  }

  /** One turn of the inner loop of `send_tx`: the RPC submission happens only without a
      signature, the transmission (with the lookup nested in it) only when unconfirmed. */
  datatype Visit = Visit(submits: bool, transmits: bool)

  function VisitBlock(v: Visit, next: Block): Block {
    var transmit := if v.transmits then Guard(Tpu, Attempt(Guard(Rpc, Attempt(End), End)), next) else next;
    if v.submits then Guard(Rpc, Attempt(End), transmit) else transmit
  }

  function SendTxBody(visits: seq<Visit>): Block {
    if visits == [] then End else VisitBlock(visits[0], SendTxBody(visits[1..]))
  }

  /** The handlers of the Broadcast service. The number and kind of visits of `send_tx`
      depend on its environment, so any list stands for one of its executions. */
  datatype Handler =
    | SendTx(visits: seq<Visit>)
    | RunGenesis
    | RunInitializeTokenAccount
    | RunCreateAccount
    | RunMint

  function HandlerBody(h: Handler): Block {
    match h
    case SendTx(visits) => SendTxBody(visits)
    case RunGenesis => Body(CreateAndInitMint)
    case RunInitializeTokenAccount => Body(UtilInitializeTokenAccount)
    case RunCreateAccount => Body(UtilCreateAccount)
    case RunMint => Body(UtilMintToExistingAccount)
  }

  function LaunchHandlers(hs: seq<Handler>): System {
    Launch(HandlerBodies(hs))
  }

  function HandlerBodies(hs: seq<Handler>): seq<Block> {
    seq(|hs|, i requires 0 <= i < |hs| => HandlerBody(hs[i]))
  }

  datatype Place = Outside | InTpu | InRpc

  function Inside(m: Mutex): Place {
    if m == Tpu then InTpu else InRpc
  }

  /** The order read off the block structure: the TPU guard is never bound inside another
      scope, the RPC guard at most inside the TPU's. */
  predicate NestsRpcInTpu(b: Block, p: Place) {
    match b
    case End => true
    case Attempt(next) => NestsRpcInTpu(next, p)
    case Guard(m, body, next) =>
      && (if m == Tpu then p == Outside else p != InRpc)
      && NestsRpcInTpu(body, Inside(m))
      && NestsRpcInTpu(next, p)
  }

  predicate PlaceOf(held: seq<Mutex>, p: Place) {
    match p
    case Outside => held == []
    case InTpu => held == [Tpu]
    case InRpc => held == [Rpc] || held == [Tpu, Rpc]
  }

  lemma {:induction false} NestingIsOrdered(b: Block, p: Place, held: seq<Mutex>, rest: seq<Instr>)
    requires NestsRpcInTpu(b, p) && PlaceOf(held, p) && Ordered(rest, held)
    ensures Ordered(Compile(b) + rest, held)
    decreases b
  {
    match b
    case End =>
      assert Compile(b) + rest == rest;
    case Attempt(next) =>
      NestingIsOrdered(next, p, held, rest);
      assert (Compile(b) + rest)[1..] == Compile(next) + rest;
    case Guard(m, body, next) =>
      NestingIsOrdered(next, p, held, rest);
      PlaceInside(held, p, m);
      OrderedAfterUnlock(m, Compile(next) + rest, held);
      NestingIsOrdered(body, Inside(m), held + [m], [Unlock(m)] + (Compile(next) + rest));
      OrderedGuard(m, Compile(body), Compile(next), rest, held);
  }

  lemma {:induction false} PlaceInside(held: seq<Mutex>, p: Place, m: Mutex)
    requires PlaceOf(held, p) && if m == Tpu then p == Outside else p != InRpc
    ensures PlaceOf(held + [m], Inside(m)) && forall h | h in held :: Rank(h) < Rank(m)
  {
    assert held == [] ==> held + [m] == [m];
    assert held == [Tpu] ==> held + [m] == [Tpu, m];
  }

  lemma {:induction false} OrderedAfterUnlock(m: Mutex, after: seq<Instr>, held: seq<Mutex>)
    requires Ordered(after, held)
    ensures Ordered([Unlock(m)] + after, held + [m])
  {
    assert ([Unlock(m)] + after)[1..] == after;
    assert (held + [m])[..|held|] == held;
  }

  lemma {:induction false} OrderedGuard(m: Mutex, body: seq<Instr>, next: seq<Instr>, rest: seq<Instr>,
      held: seq<Mutex>)
    requires Ordered(body + ([Unlock(m)] + (next + rest)), held + [m])
    requires forall h | h in held :: Rank(h) < Rank(m)
    ensures Ordered([Lock(m)] + body + [Unlock(m)] + next + rest, held)
  {
    assert ([Lock(m)] + body + [Unlock(m)] + next + rest)[1..] == body + ([Unlock(m)] + (next + rest));
  }

  lemma {:induction false} SendTxNests(visits: seq<Visit>)
    ensures NestsRpcInTpu(SendTxBody(visits), Outside)
  {
    if visits != [] {
      SendTxNests(visits[1..]);
      var lookup := Guard(Rpc, Attempt(End), End);
      assert NestsRpcInTpu(Attempt(lookup), InTpu);
      var transmit := Guard(Tpu, Attempt(lookup), SendTxBody(visits[1..]));
      assert NestsRpcInTpu(transmit, Outside);
    }
  }

  lemma {:induction false} HandlerNests(h: Handler)
    ensures NestsRpcInTpu(HandlerBody(h), Outside) <==> h != RunGenesis
  {
    match h
    case SendTx(visits) => SendTxNests(visits);
    case RunGenesis => FunctionNests(CreateAndInitMint);
    case RunInitializeTokenAccount => FunctionNests(UtilInitializeTokenAccount);
    case RunCreateAccount => FunctionNests(UtilCreateAccount);
    case RunMint => FunctionNests(UtilMintToExistingAccount);
  }

  ghost predicate NoGenesis(hs: seq<Handler>) {
    forall h | h in hs :: h != RunGenesis
  }

  lemma {:induction false} NestingNeverRebinds(b: Block, p: Place, alive: set<Mutex>)
    requires NestsRpcInTpu(b, p)
    requires alive == match p case Outside => {} case InTpu => {Tpu} case InRpc => alive
    ensures !Rebinds(b, alive)
  {
    match b
    case End =>
    case Attempt(next) => NestingNeverRebinds(next, p, alive);
    case Guard(m, body, next) =>
      NestingNeverRebinds(body, Inside(m), alive + {m});
      NestingNeverRebinds(next, p, alive);
  }

  lemma {:induction false} NestedSystemIsOrdered(bs: seq<Block>)
    requires forall b | b in bs :: NestsRpcInTpu(b, Outside)
    ensures OrderedSystem(Launch(bs))
  {
    StartIsFresh(bs);
    FreshIsSound(Launch(bs));
    forall t | t in Launch(bs)
      ensures Ordered(t.code, t.held)
    {
      var i :| 0 <= i < |bs| && Launch(bs)[i] == t;
      assert bs[i] in bs;
      NestingIsOrdered(bs[i], Outside, [], []);
      assert Compile(bs[i]) + [] == Compile(bs[i]);
    }
  }

  /** Any mix of bodies that either keep the order or rebind a guard always completes
      exactly when none of them rebinds. */
  lemma {:induction false} MixCompletesIff(bs: seq<Block>)
    requires forall b | b in bs :: NestsRpcInTpu(b, Outside) || Rebinds(b, {})
    ensures AlwaysCompletes(Launch(bs)) <==> forall b | b in bs :: !Rebinds(b, {})
  {
    if b :| b in bs && Rebinds(b, {}) {
      var i :| 0 <= i < |bs| && bs[i] == b;
      StartIsFresh(bs);
      FreshIsSound(Launch(bs));
      RebindsIsRelock(b, [], []);
      assert Compile(b) + [] == Compile(b) && Alive([]) == {};
      RelockCanBlock(Launch(bs), i);
    } else {
      NestedSystemIsOrdered(bs);
      OrderedCompletes(Launch(bs));
    }
  }

  /** Any mix of library functions, running together on one client, always completes
      exactly when none of the three is among them; the block-scoped `mint_to_new_account`
      is safe in any company. */
  lemma {:induction false} LibraryMixCompletesIff(fs: seq<LibraryFunction>)
    ensures AlwaysCompletes(Launch(Bodies(fs)))
       <==> CreateAccountRentExempt !in fs && CreateAndInitMint !in fs && NewMint !in fs
  {
    FunctionsRebind(fs);
    MixCompletesIff(Bodies(fs));
  }

  /** In any mix and any run, each of the three can only end through an early error. */
  lemma {:induction false} AskingTwiceNeverSucceeds(fs: seq<LibraryFunction>, run: seq<System>, i: nat, k: nat)
    requires IsRun(run) && run[0] == Launch(Bodies(fs)) && k < |run|
    requires i < |fs| && fs[i] in {CreateAccountRentExempt, CreateAndInitMint, NewMint}
    ensures |run[k]| == |fs|
    ensures Finished(run[k][i]) ==> run[k][i].failed
  {
    StartIsFresh(Bodies(fs));
    FunctionRebinds(fs[i]);
    RebindsIsRelock(Body(fs[i]), [], []);
    assert Compile(Body(fs[i])) + [] == Compile(Body(fs[i])) && Alive([]) == {};
    RelockNeverSucceeds(run, i, k);
  }

  lemma {:induction false} FunctionsRebind(fs: seq<LibraryFunction>)
    ensures forall b | b in Bodies(fs) :: NestsRpcInTpu(b, Outside) || Rebinds(b, {})
    ensures (forall b | b in Bodies(fs) :: !Rebinds(b, {}))
       <==> forall f | f in fs :: !AsksTwice(f)
  {
    var bs := Bodies(fs);
    forall i | 0 <= i < |fs|
      ensures bs[i] in bs
      ensures NestsRpcInTpu(bs[i], Outside) || Rebinds(bs[i], {})
      ensures Rebinds(bs[i], {}) <==> AsksTwice(fs[i])
    {
      FunctionRebinds(fs[i]);
      FunctionNests(fs[i]);
    }
    if f :| f in fs && AsksTwice(f) {
      var i :| 0 <= i < |fs| && fs[i] == f;
      assert Rebinds(bs[i], {}) && bs[i] in bs;
    }
  }

  function Bodies(fs: seq<LibraryFunction>): seq<Block> {
    seq(|fs|, i requires 0 <= i < |fs| => Body(fs[i]))
  }

  lemma {:induction false} NestsThen(a: Block, b: Block, p: Place)
    ensures NestsRpcInTpu(Then(a, b), p) <==> NestsRpcInTpu(a, p) && NestsRpcInTpu(b, p)
  {
    match a
    case End =>
    case Attempt(next) => NestsThen(next, b, p);
    case Guard(m, body, next) => NestsThen(next, b, p);
  }

  lemma {:induction false} FunctionNests(f: LibraryFunction)
    ensures NestsRpcInTpu(Body(f), Outside) <==> !AsksTwice(f)
  {
    var two := Attempt(Attempt(End));
    assert NestsRpcInTpu(Attempt(End), InRpc) && NestsRpcInTpu(two, InRpc);
    assert NestsRpcInTpu(RpcCall(), Outside) && !NestsRpcInTpu(RpcCall(), InRpc);
    NestsThen(RpcCall(), RpcCall(), Outside);
    NestsThen(RpcCall(), RpcCall(), InRpc);
    assert !NestsRpcInTpu(Attempt(HashAndSend()), InRpc) && NestsRpcInTpu(Attempt(HashAndSend()), Outside);
    NestsThen(RpcCall(), Guard(Rpc, two, End), Outside);
    NestsThen(RpcCall(), SendAndConfirm(), Outside);
    NestsThen(RpcCall(), Attempt(Then(RpcCall(), SendAndConfirm())), Outside);
    NestsThen(RpcCall(), Attempt(HashAndSend()), Outside);
  }

  lemma {:induction false} HandlersAreOrdered(hs: seq<Handler>)
    requires NoGenesis(hs)
    ensures OrderedSystem(LaunchHandlers(hs))
  {
    forall i | 0 <= i < |hs|
      ensures NestsRpcInTpu(HandlerBody(hs[i]), Outside)
    {
      assert hs[i] in hs;
      HandlerNests(hs[i]);
    }
    NestedSystemIsOrdered(HandlerBodies(hs));
  }

  /** In every reachable state of any number of handlers without a mint genesis: guards
      are exclusive, `rpc` is nested at most inside `tpu`, the wait-for relation has no
      cycle, and somebody moves unless everybody is done. */
  lemma {:induction false} HandlersStaySafe(hs: seq<Handler>, run: seq<System>, k: nat)
    requires NoGenesis(hs) && IsRun(run) && run[0] == LaunchHandlers(hs) && k < |run|
    ensures Sound(run[k])
    ensures forall t | t in run[k] :: t.held in {[], [Tpu], [Rpc], [Tpu, Rpc]}
    ensures forall path | WaitPath(run[k], path) :: path[0] != path[|path| - 1]
    ensures AllFinished(run[k]) || CanStep(run[k])
    ensures k + Work(run[k]) <= Work(LaunchHandlers(hs))
  {
    HandlersAreOrdered(hs);
    OrderIsKept(run, k);
    RunsAreShort(run, k);
    HeldSortedInRun(hs, run, k);
    forall path | WaitPath(run[k], path)
      ensures path[0] != path[|path| - 1]
    {
      WaitForIsAcyclic(run[k], path);
    }
    if !AllFinished(run[k]) {
      var t :| t in run[k] && !Finished(t);
      var i :| 0 <= i < |run[k]| && run[k][i] == t;
      SomebodyMoves(run[k], i);
    }
  }

  ghost predicate HeldSorted(ts: System) {
    forall t | t in ts :: t.held in {[], [Tpu], [Rpc], [Tpu, Rpc]}
  }

  lemma {:induction false} HeldSortedInRun(hs: seq<Handler>, run: seq<System>, k: nat)
    requires NoGenesis(hs) && IsRun(run) && run[0] == LaunchHandlers(hs) && k < |run|
    ensures HeldSorted(run[k])
  {
    if k > 0 {
      HeldSortedInRun(hs, run, k - 1);
      HandlersAreOrdered(hs);
      OrderIsKept(run, k - 1);
      assert StepAt(run, k - 1);
      var i: nat :| Step(run[k - 1], i, run[k]);
      HeldSortedStep(run[k - 1], i, run[k]);
    }
  }

  lemma {:induction false} HeldSortedStep(ts: System, i: nat, ts': System)
    requires OrderedSystem(ts) && HeldSorted(ts) && Step(ts, i, ts')
    ensures HeldSorted(ts')
  {
    assert ts[i] in ts;
    OrderedHeldStep(ts[i], ts'[i].held);
    forall t | t in ts'
      ensures t.held in {[], [Tpu], [Rpc], [Tpu, Rpc]}
    {
      var j :| 0 <= j < |ts'| && ts'[j] == t;
      if j != i { assert t == ts[j] && t in ts; }
    }
  }

  lemma {:induction false} OrderedHeldStep(t: Task, held': seq<Mutex>)
    requires t.code != [] && Ordered(t.code, t.held) && t.held in {[], [Tpu], [Rpc], [Tpu, Rpc]}
    requires match t.code[0]
             case Lock(m) => held' == t.held + [m]
             case Unlock(_) => t.held != [] && held' == t.held[..|t.held| - 1]
             case Try => held' == t.held
    ensures held' in {[], [Tpu], [Rpc], [Tpu, Rpc]}
  {
    match t.code[0]
    case Lock(m) =>
      if t.held != [] {
        assert t.held[|t.held| - 1] in t.held;
        assert held' == [Tpu, Rpc];
      } else if m == Tpu {
        assert held' == [Tpu];
      } else {
        assert held' == [Rpc];
      }
    case Unlock(_) =>
      assert t.held == [Tpu, Rpc] ==> held' == [Tpu];
    case Try =>
  }

  /** The compiled body of a mint genesis: the guard of the rent query, the query, the
      instruction builder, then block hash and sending with a guard each. */
  const GENESIS_CODE: seq<Instr> :=
    [Lock(Rpc), Try, Try, Lock(Rpc), Try, Unlock(Rpc), Lock(Rpc), Try, Unlock(Rpc), Unlock(Rpc)]

  /** A mint genesis whose rent query and instruction builder have both succeeded. */
  function GenesisPastRent(): Task {
    Task(GENESIS_CODE[3..], [Rpc], false)
  }

  /** The only states a mint genesis is ever in, in any company. */
  function GenesisStates(): set<Task> {
    { Task(GENESIS_CODE, [], false),
      Task(GENESIS_CODE[1..], [Rpc], false),
      Task(GENESIS_CODE[2..], [Rpc], false),
      GenesisPastRent(),
      Task([Unlock(Rpc)], [Rpc], true),
      Task([], [], true) }
  }

  /** What each handler but `send_tx` runs when nothing fails. */
  lemma {:induction false} HandlerCode(h: Handler)
    ensures h == RunGenesis ==>
              Compile(HandlerBody(h))
                == [Lock(Rpc), Try, Try, Lock(Rpc), Try, Unlock(Rpc), Lock(Rpc), Try, Unlock(Rpc), Unlock(Rpc)]
    ensures h == RunInitializeTokenAccount ==>
              Compile(HandlerBody(h))
                == [Lock(Rpc), Try, Unlock(Rpc), Try, Lock(Rpc), Try, Unlock(Rpc),
                    Lock(Rpc), Try, Unlock(Rpc), Lock(Rpc), Try, Try, Unlock(Rpc)]
    ensures h == RunCreateAccount ==>
              Compile(HandlerBody(h))
                == [Lock(Rpc), Try, Unlock(Rpc), Try, Lock(Rpc), Try, Unlock(Rpc), Lock(Rpc), Try, Unlock(Rpc)]
    ensures h == RunMint ==>
              Compile(HandlerBody(h))
                == [Try, Lock(Rpc), Try, Unlock(Rpc), Lock(Rpc), Try, Unlock(Rpc), Lock(Rpc), Try, Try, Unlock(Rpc)]
  {
    match h
    case SendTx(_) =>
    case RunGenesis => FunctionCode(CreateAndInitMint);
    case RunInitializeTokenAccount => FunctionCode(UtilInitializeTokenAccount);
    case RunCreateAccount => FunctionCode(UtilCreateAccount);
    case RunMint => FunctionCode(UtilMintToExistingAccount);
  }

  lemma {:induction false} GenesisCode()
    ensures Start(HandlerBody(RunGenesis)) == Task(GENESIS_CODE, [], false)
  {
    assert Compile(HashAndSend()) == [Lock(Rpc), Try, Unlock(Rpc), Lock(Rpc), Try, Unlock(Rpc)];
    assert Compile(Body(CreateAndInitMint)) == [Lock(Rpc), Try, Try] + Compile(HashAndSend()) + [Unlock(Rpc)];
  }

  lemma {:induction false} HandlersAreFresh(hs: seq<Handler>)
    ensures Fresh(LaunchHandlers(hs)) && |LaunchHandlers(hs)| == |hs|
    ensures forall g | 0 <= g < |hs| && hs[g] == RunGenesis :: LaunchHandlers(hs)[g] == Task(GENESIS_CODE, [], false)
  {
    StartIsFresh(HandlerBodies(hs));
    GenesisCode();
  }

  lemma {:induction false} GenesisStaysKnown(run: seq<System>, g: nat, k: nat)
    requires IsRun(run) && Fresh(run[0]) && k < |run|
    requires g < |run[0]| && run[0][g] in GenesisStates()
    ensures |run[k]| == |run[0]| && run[k][g] in GenesisStates()
  {
    if k > 0 {
      GenesisStaysKnown(run, g, k - 1);
      var i := StepOfRun(run, k - 1);
      AnyStepKeepsGenesisKnown(run[k - 1], i, run[k], g);
    }
  }

  lemma {:induction false} AnyStepKeepsGenesisKnown(ts: System, i: nat, ts': System, g: nat)
    requires Sound(ts) && Step(ts, i, ts') && g < |ts| && ts[g] in GenesisStates()
    ensures |ts'| == |ts| && ts'[g] in GenesisStates()
  {
    if i == g {
      GenesisStep(ts, g, ts');
    }
  }

  /** Never a signature: a genesis handler either returns early with an error of its
      first two fallible steps, or passes them and then waits for itself. */
  lemma {:induction false} GenesisNeverSucceeds(hs: seq<Handler>, run: seq<System>, g: nat, k: nat)
    requires IsRun(run) && run[0] == LaunchHandlers(hs) && k < |run|
    requires g < |hs| && hs[g] == RunGenesis
    ensures |run[k]| == |hs| && run[k][g] in GenesisStates()
    ensures Finished(run[k][g]) ==> run[k][g].failed
  {
    HandlersAreFresh(hs);
    GenesisStaysKnown(run, g, k);
  }

  lemma {:induction false} GenesisStep(ts: System, g: nat, ts': System)
    requires Sound(ts) && Step(ts, g, ts') && ts[g] in GenesisStates()
    ensures ts'[g] in GenesisStates()
  {
    var t := ts[g];
    assert t in ts;
    assert GENESIS_CODE[1..][1..] == GENESIS_CODE[2..] && GENESIS_CODE[2..][1..] == GENESIS_CODE[3..];
    assert Unwind([Rpc]) == [Unlock(Rpc)];
    assert t == GenesisPastRent() ==> !Free(ts, Rpc);
    match t.code[0]
    case Lock(m) =>
      assert [] + [Rpc] == [Rpc];
    case Unlock(m) =>
      assert t.held[..0] == [] && t.code[1..] == [];
    case Try =>
  }

  /** Each of those states is reached by some run, whatever the company. */
  lemma {:induction false} GenesisReaches(hs: seq<Handler>, g: nat, t: Task) returns (run: seq<System>)
    requires g < |hs| && hs[g] == RunGenesis && t in GenesisStates()
    ensures IsRun(run) && run[0] == LaunchHandlers(hs)
    ensures |run[|run| - 1]| == |hs| && run[|run| - 1][g] == t
  {
    HandlersAreFresh(hs);
    run := [LaunchHandlers(hs)];
    if t != Task(GENESIS_CODE, [], false) {
      run := GenesisLocks(run, g);
      if t == Task(GENESIS_CODE[2..], [Rpc], false) || t == GenesisPastRent() {
        run := GenesisAttempts(run, g, t);
      } else if t != Task(GENESIS_CODE[1..], [Rpc], false) {
        run := GenesisFails(run, g, t);
      }
    }
  }

  lemma {:induction false} GenesisLocks(run: seq<System>, g: nat) returns (run': seq<System>)
    requires IsRun(run) && g < |run[|run| - 1]| && Fresh(run[|run| - 1])
    requires run[|run| - 1][g] == Task(GENESIS_CODE, [], false)
    ensures IsRun(run') && run <= run' && |run'[|run'| - 1]| == |run[|run| - 1]|
    ensures run'[|run'| - 1][g] == Task(GENESIS_CODE[1..], [Rpc], false)
  {
    var s1 := run[|run| - 1][g := Task(GENESIS_CODE[1..], [Rpc], false)];
    assert [] + [Rpc] == [Rpc];
    ExtendRun(run, g, s1);
    run' := run + [s1];
  }

  lemma {:induction false} GenesisAttempts(run: seq<System>, g: nat, t: Task) returns (run': seq<System>)
    requires IsRun(run) && g < |run[|run| - 1]|
    requires run[|run| - 1][g] == Task(GENESIS_CODE[1..], [Rpc], false)
    requires t == Task(GENESIS_CODE[2..], [Rpc], false) || t == GenesisPastRent()
    ensures IsRun(run') && run <= run' && |run'[|run'| - 1]| == |run[|run| - 1]| && run'[|run'| - 1][g] == t
  {
    var s1 := run[|run| - 1];
    assert GENESIS_CODE[1..][1..] == GENESIS_CODE[2..] && GENESIS_CODE[2..][1..] == GENESIS_CODE[3..];
    AttemptSucceeds(run, g);
    run' := run + [s1[g := Task(GENESIS_CODE[2..], [Rpc], false)]];
    if t == GenesisPastRent() {
      AttemptSucceeds(run', g);
      run' := run' + [run'[|run'| - 1][g := GenesisPastRent()]];
    }
  }

  lemma {:induction false} GenesisFails(run: seq<System>, g: nat, t: Task) returns (run': seq<System>)
    requires IsRun(run) && g < |run[|run| - 1]|
    requires run[|run| - 1][g] == Task(GENESIS_CODE[1..], [Rpc], false)
    requires t == Task([Unlock(Rpc)], [Rpc], true) || t == Task([], [], true)
    ensures IsRun(run') && run <= run' && |run'[|run'| - 1]| == |run[|run| - 1]| && run'[|run'| - 1][g] == t
  {
    var s1 := run[|run| - 1];
    assert Unwind([Rpc]) == [Unlock(Rpc)];
    var s2 := s1[g := Task([Unlock(Rpc)], [Rpc], true)];
    ExtendRun(run, g, s2);
    run' := run + [s2];
    if t == Task([], [], true) {
      var s3 := s2[g := t];
      assert s2[g].code[1..] == [] && s2[g].held[..0] == [];
      ExtendRun(run', g, s3);
      run' := run' + [s3];
    }
  }

  /** Past its rent query and its instruction builder a genesis waits in every continuation of every run, and no
      other task owns `rpc` from then on. */
  lemma {:induction false} GenesisStarvesEverybody(hs: seq<Handler>, run: seq<System>, g: nat, k: nat, later: nat)
    requires IsRun(run) && run[0] == LaunchHandlers(hs) && k <= later < |run|
    requires g < |hs| && hs[g] == RunGenesis
    requires |run[k]| == |hs| && run[k][g] == GenesisPastRent()
    ensures |run[later]| == |hs| && run[later][g] == GenesisPastRent()
    ensures forall j | 0 <= j < |hs| && j != g :: Rpc !in run[later][j].held
  {
    HandlersAreFresh(hs);
    GuardsAreExclusive(run, k);
    var rest := run[k..];
    forall j | 0 <= j < |rest| - 1
      ensures StepAt(rest, j)
    {
      assert StepAt(run, k + j);
      assert rest[j] == run[k + j] && rest[j + 1] == run[k + j + 1];
    }
    SelfBlockedForever(rest, g, later - k);
  }

  lemma {:induction false} HandlersRebind(hs: seq<Handler>)
    ensures forall b | b in HandlerBodies(hs) :: NestsRpcInTpu(b, Outside) || Rebinds(b, {})
    ensures (forall b | b in HandlerBodies(hs) :: !Rebinds(b, {})) <==> NoGenesis(hs)
  {
    var bs := HandlerBodies(hs);
    FunctionRebinds(CreateAndInitMint);
    forall i | 0 <= i < |hs|
      ensures bs[i] in bs && hs[i] in hs
      ensures NestsRpcInTpu(bs[i], Outside) || Rebinds(bs[i], {})
      ensures Rebinds(bs[i], {}) <==> hs[i] == RunGenesis
    {
      HandlerNests(hs[i]);
      if hs[i] != RunGenesis { NestingNeverRebinds(bs[i], Outside, {}); }
    }
    if h :| h in hs && h == RunGenesis {
      var g :| 0 <= g < |hs| && hs[g] == RunGenesis;
      assert Rebinds(bs[g], {}) && bs[g] in bs;
    }
  }

  /** The Broadcast service always completes its handlers exactly when none of them is a
      mint genesis. */
  lemma {:induction false} BroadcastCompletesIff(hs: seq<Handler>)
    ensures AlwaysCompletes(LaunchHandlers(hs)) <==> NoGenesis(hs)
  {
    HandlersRebind(hs);
    MixCompletesIff(HandlerBodies(hs));
  }
}
