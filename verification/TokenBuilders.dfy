/** Builders of token program instructions, with any list of multisig signers. */
module TokenBuilders {
  import opened Wrappers
  import opened Words
  import opened Accounts
  import opened Sequences
  import opened TokenCodec

  const MIN_SIGNERS := 1
  const MAX_SIGNERS := 11

  type Built = Outcome<Instruction<seq<byte>>, ProgramError>

  predicate IsValidSignerIndex(index: nat) {
    !(index < MIN_SIGNERS || index > MAX_SIGNERS)
  }

  function SignerMetas(signers: seq<Key>): (ms: seq<AccountMeta>)
    ensures |ms| == |signers|
  {
    seq(|signers|, i requires 0 <= i < |signers| => Writable(signers[i], true))
  }

  /** The account list of an instruction that an owner or delegate must authorise. */
  function Authorised(fixedAccounts: seq<AccountMeta>, authority: Key, signers: seq<Key>): seq<AccountMeta> {
    fixedAccounts + [Readonly(authority, signers == [])] + SignerMetas(signers)
  }

  /** A finished builder: the program, the accounts, and the packed data, which reads back
      as `x`. */
  ghost predicate Builds(r: Built, program: Key, accounts: seq<AccountMeta>, x: TokenInstruction) {
    && r.Ok? && r.value.programId == program && r.value.accounts == accounts
    && r.value.data == Packed(x) && Unpack(r.value.data) == Ok(x)
  }

  method Finish(program: Key, accounts: seq<AccountMeta>, x: TokenInstruction) returns (r: Built)
    ensures Builds(r, program, accounts, x)
  {
    var data := Pack(x);
    UnpackOfPacked(x);
    r := Ok(Instruction(program, accounts, data));
  }

  /** The loop every authorised builder ends with. */
  method PushAuthority(fixedAccounts: seq<AccountMeta>, authority: Key, signers: seq<Key>)
    returns (accounts: seq<AccountMeta>)
    ensures accounts == Authorised(fixedAccounts, authority, signers)
  {
    accounts := fixedAccounts + [Readonly(authority, signers == [])];
    for i := 0 to |signers|
      invariant accounts == fixedAccounts + [Readonly(authority, signers == [])] + SignerMetas(signers)[..i]
    {
      accounts := accounts + [Writable(signers[i], true)];
    }
  }

  method BuildInitializeMint(program: Key, mint: Key, account: Option<Key>, owner: Option<Key>, amount: u64,
      decimals: byte)
    returns (r: Built)
    ensures r == Err(NotEnoughAccountKeys) <==> amount != 0 && account.None?
    ensures r == Err(Custom(8)) <==> amount == 0 && owner.None?
    ensures r.Ok? || r == Err(NotEnoughAccountKeys) || r == Err(Custom(8))
    ensures r.Ok? ==>
              Builds(r, program,
                     [AccountMeta(pubkey := mint, isSigner := false, isWritable := true)]
                     + (if amount == 0 then []
                        else [AccountMeta(pubkey := account.value, isSigner := false, isWritable := true)])
                     + (if owner.None? then []
                        else [AccountMeta(pubkey := owner.value, isSigner := false, isWritable := false)]),
                     InitializeMint(amount, decimals))
  {
    var accounts := [Writable(mint, false)];
    if amount != 0 {
      if account.None? {
        return Err(NotEnoughAccountKeys);
      }
      accounts := accounts + [Writable(account.value, false)];
    }
    if owner.Some? {
      accounts := accounts + [Readonly(owner.value, false)];
    } else if amount == 0 {
      return Err(Custom(8));
    }
    r := Finish(program, accounts, InitializeMint(amount, decimals));
  }

  method BuildInitializeAccount(program: Key, account: Key, mint: Key, owner: Key) returns (r: Built)
    ensures Builds(r, program, [Writable(account, false), Readonly(mint, false), Readonly(owner, false)],
                   InitializeAccount)
    ensures r.value.accounts == [
              AccountMeta(pubkey := account, isSigner := false, isWritable := true),
              AccountMeta(pubkey := mint, isSigner := false, isWritable := false),
              AccountMeta(pubkey := owner, isSigner := false, isWritable := false)]
  {
    r := Finish(program, [Writable(account, false), Readonly(mint, false), Readonly(owner, false)], InitializeAccount);
  }

  method BuildInitializeMultisig(program: Key, multisig: Key, signers: seq<Key>, m: byte) returns (r: Built)
    ensures r.Ok? <==> 1 <= m <= |signers| <= 11
    ensures !r.Ok? ==> r == Err(MissingRequiredSignature)
    ensures r.Ok? ==>
              && Unpack(r.value.data) == Ok(InitializeMultisig(m)) && r.value.programId == program
              && |r.value.accounts| == |signers| + 1
              && r.value.accounts[0] == AccountMeta(pubkey := multisig, isSigner := false, isWritable := true)
              && forall i | 0 <= i < |signers| ::
                   r.value.accounts[i + 1] == AccountMeta(pubkey := signers[i], isSigner := false, isWritable := false)
  {
    if !IsValidSignerIndex(m) || !IsValidSignerIndex(|signers|) || m > |signers| {
      return Err(MissingRequiredSignature);
    }
    var accounts := [Writable(multisig, false)];
    for i := 0 to |signers|
      invariant |accounts| == i + 1 && accounts[0] == Writable(multisig, false)
      invariant forall j | 0 <= j < i :: accounts[j + 1] == Readonly(signers[j], false)
    {
      accounts := accounts + [Readonly(signers[i], false)];
    }
    r := Finish(program, accounts, InitializeMultisig(m));
  }

  method BuildTransfer(program: Key, source: Key, destination: Key, authority: Key, signers: seq<Key>, amount: u64)
    returns (r: Built)
    ensures Builds(r, program, Authorised([Writable(source, false), Writable(destination, false)], authority, signers),
                   Transfer(amount))
    ensures var a := r.value.accounts;
            && |a| == 3 + |signers|
            && a[0] == AccountMeta(pubkey := source, isSigner := false, isWritable := true)
            && a[1] == AccountMeta(pubkey := destination, isSigner := false, isWritable := true)
            && a[2] == AccountMeta(pubkey := authority, isSigner := signers == [], isWritable := false)
            && forall i | 0 <= i < |signers| ::
                 a[3 + i] == AccountMeta(pubkey := signers[i], isSigner := true, isWritable := true)
  {
    var accounts := PushAuthority([Writable(source, false), Writable(destination, false)], authority, signers);
    r := Finish(program, accounts, Transfer(amount));
  }

  /** The source is the read-only account and the delegate the writable one, the reverse
      of what the instruction's documentation lists. */
  method BuildApprove(program: Key, source: Key, delegate: Key, owner: Key, signers: seq<Key>, amount: u64)
    returns (r: Built)
    ensures Builds(r, program, Authorised([Readonly(source, false), Writable(delegate, false)], owner, signers),
                   Approve(amount))
    ensures var a := r.value.accounts;
            && |a| == 3 + |signers|
            && a[0] == AccountMeta(pubkey := source, isSigner := false, isWritable := false)
            && a[1] == AccountMeta(pubkey := delegate, isSigner := false, isWritable := true)
            && a[2] == AccountMeta(pubkey := owner, isSigner := signers == [], isWritable := false)
            && forall i | 0 <= i < |signers| ::
                 a[3 + i] == AccountMeta(pubkey := signers[i], isSigner := true, isWritable := true)
  {
    var accounts := PushAuthority([Readonly(source, false), Writable(delegate, false)], owner, signers);
    r := Finish(program, accounts, Approve(amount));
  }

  method BuildRevoke(program: Key, source: Key, owner: Key, signers: seq<Key>) returns (r: Built)
    ensures Builds(r, program, Authorised([Readonly(source, false)], owner, signers), Revoke)
    ensures var a := r.value.accounts;
            && |a| == 2 + |signers|
            && a[0] == AccountMeta(pubkey := source, isSigner := false, isWritable := false)
            && a[1] == AccountMeta(pubkey := owner, isSigner := signers == [], isWritable := false)
            && forall i | 0 <= i < |signers| ::
                 a[2 + i] == AccountMeta(pubkey := signers[i], isSigner := true, isWritable := true)
  {
    var accounts := PushAuthority([Readonly(source, false)], owner, signers);
    r := Finish(program, accounts, Revoke);
  }

  method BuildSetOwner(program: Key, owned: Key, newOwner: Key, owner: Key, signers: seq<Key>) returns (r: Built)
    ensures Builds(r, program, Authorised([Writable(owned, false), Readonly(newOwner, false)], owner, signers),
                   SetOwner)
    ensures var a := r.value.accounts;
            && |a| == 3 + |signers|
            && a[0] == AccountMeta(pubkey := owned, isSigner := false, isWritable := true)
            && a[1] == AccountMeta(pubkey := newOwner, isSigner := false, isWritable := false)
            && a[2] == AccountMeta(pubkey := owner, isSigner := signers == [], isWritable := false)
            && forall i | 0 <= i < |signers| ::
                 a[3 + i] == AccountMeta(pubkey := signers[i], isSigner := true, isWritable := true)
  {
    var accounts := PushAuthority([Writable(owned, false), Readonly(newOwner, false)], owner, signers);
    r := Finish(program, accounts, SetOwner);
  }

  method BuildMintTo(program: Key, mint: Key, account: Key, owner: Key, signers: seq<Key>, amount: u64)
    returns (r: Built)
    ensures Builds(r, program, Authorised([Writable(mint, false), Writable(account, false)], owner, signers),
                   MintTo(amount))
    ensures var a := r.value.accounts;
            && |a| == 3 + |signers|
            && a[0] == AccountMeta(pubkey := mint, isSigner := false, isWritable := true)
            && a[1] == AccountMeta(pubkey := account, isSigner := false, isWritable := true)
            && a[2] == AccountMeta(pubkey := owner, isSigner := signers == [], isWritable := false)
            && forall i | 0 <= i < |signers| ::
                 a[3 + i] == AccountMeta(pubkey := signers[i], isSigner := true, isWritable := true)
  {
    var accounts := PushAuthority([Writable(mint, false), Writable(account, false)], owner, signers);
    r := Finish(program, accounts, MintTo(amount));
  }

  method BuildBurn(program: Key, account: Key, authority: Key, signers: seq<Key>, amount: u64) returns (r: Built)
    ensures Builds(r, program, Authorised([Writable(account, false)], authority, signers), Burn(amount))
    ensures var a := r.value.accounts;
            && |a| == 2 + |signers|
            && a[0] == AccountMeta(pubkey := account, isSigner := false, isWritable := true)
            && a[1] == AccountMeta(pubkey := authority, isSigner := signers == [], isWritable := false)
            && forall i | 0 <= i < |signers| ::
                 a[2 + i] == AccountMeta(pubkey := signers[i], isSigner := true, isWritable := true)
  {
    var accounts := PushAuthority([Writable(account, false)], authority, signers);
    r := Finish(program, accounts, Burn(amount));
  }

  method BuildCloseAccount(program: Key, account: Key, dest: Key, authority: Key, signers: seq<Key>)
    returns (r: Built)
    ensures Builds(r, program, Authorised([Writable(account, false), Writable(dest, false)], authority, signers),
                   CloseAccount)
    ensures var a := r.value.accounts;
            && |a| == 3 + |signers|
            && a[0] == AccountMeta(pubkey := account, isSigner := false, isWritable := true)
            && a[1] == AccountMeta(pubkey := dest, isSigner := false, isWritable := true)
            && a[2] == AccountMeta(pubkey := authority, isSigner := signers == [], isWritable := false)
            && forall i | 0 <= i < |signers| ::
                 a[3 + i] == AccountMeta(pubkey := signers[i], isSigner := true, isWritable := true)
  {
    var accounts := PushAuthority([Writable(account, false), Writable(dest, false)], authority, signers);
    r := Finish(program, accounts, CloseAccount);
  }

  // ---------- who has to sign ----------

  /** The keys whose signatures the instruction demands, in account order. */
  function RequiredSigners(accounts: seq<AccountMeta>): seq<Key> {
    if accounts == [] then []
    else (if accounts[0].isSigner then [accounts[0].pubkey] else []) + RequiredSigners(accounts[1..])
  }

  lemma {:induction false} RequiredSignersOfConcat(a: seq<AccountMeta>, b: seq<AccountMeta>)
    ensures RequiredSigners(a + b) == RequiredSigners(a) + RequiredSigners(b)
  {
    if a == [] {
      assert a + b == b;
    } else {
      RequiredSignersOfConcat(a[1..], b);
      assert (a + b)[1..] == a[1..] + b && (a + b)[0] == a[0];
      var first := if a[0].isSigner then [a[0].pubkey] else [];
      Associative(first, RequiredSigners(a[1..]), RequiredSigners(b));
    }
  }

  lemma {:induction false} NoSignersRequired(a: seq<AccountMeta>)
    requires forall m | m in a :: !m.isSigner
    ensures RequiredSigners(a) == []
  {
    if a != [] {
      NoSignersRequired(a[1..]);
    }
  }

  lemma {:induction false} SignersRequired(signers: seq<Key>)
    ensures RequiredSigners(SignerMetas(signers)) == signers
  {
    if signers != [] {
      SignersRequired(signers[1..]);
      assert SignerMetas(signers)[1..] == SignerMetas(signers[1..]);
    }
  }

  /** Without multisig signers the authority itself must sign and nobody else; with them,
      exactly they must sign, in the given order, and the authority need not. So there are
      max(1, n) required signatures, whatever the fixed accounts. */
  lemma {:induction false} AuthorisedSigners(fixedAccounts: seq<AccountMeta>, authority: Key, signers: seq<Key>)
    requires forall m | m in fixedAccounts :: !m.isSigner
    ensures var accounts := Authorised(fixedAccounts, authority, signers);
            && RequiredSigners(accounts) == (if signers == [] then [authority] else signers)
            && |RequiredSigners(accounts)| == (if |signers| > 1 then |signers| else 1)
            && |accounts| == |fixedAccounts| + 1 + |signers|
            && accounts[|fixedAccounts|].pubkey == authority
            && (accounts[|fixedAccounts|].isSigner <==> |signers| == 0)
            && !accounts[|fixedAccounts|].isWritable
            && forall i | 0 <= i < |signers| ::
                 accounts[|fixedAccounts| + 1 + i]
                   == AccountMeta(pubkey := signers[i], isSigner := true, isWritable := true)
  {
    var auth := Readonly(authority, signers == []);
    NoSignersRequired(fixedAccounts);
    SignersRequired(signers);
    RequiredSignersOfConcat(fixedAccounts + [auth], SignerMetas(signers));
    RequiredSignersOfConcat(fixedAccounts, [auth]);
    assert RequiredSigners([auth]) == if signers == [] then [authority] else [];
  }

  /** The account list determines who was asked: the same fixed accounts and authorisation
      cannot come from different signer lists or authorities. */
  lemma {:induction false} AuthorisedInjective(fixedAccounts: seq<AccountMeta>, a: Key, s: seq<Key>, b: Key,
      t: seq<Key>)
    requires Authorised(fixedAccounts, a, s) == Authorised(fixedAccounts, b, t)
    ensures a == b && s == t
  {
    var left, n := Authorised(fixedAccounts, a, s), |fixedAccounts|;
    assert left[n] == Readonly(a, s == []) && Authorised(fixedAccounts, b, t)[n] == Readonly(b, t == []);
    assert left[n + 1..] == SignerMetas(s) && Authorised(fixedAccounts, b, t)[n + 1..] == SignerMetas(t);
    SignersRequired(s);
    SignersRequired(t);
  }
}
