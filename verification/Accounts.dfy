/** Keys, account metas and instructions as the Solana SDK shapes them. */
module Accounts {
  import opened Words

  type Key = k: seq<byte> | |k| == 32 witness seq(32, _ => 0)

  datatype AccountMeta = AccountMeta(pubkey: Key, isSigner: bool, isWritable: bool)

  /** `AccountMeta::new` */
  function Writable(k: Key, signer: bool): AccountMeta {
    AccountMeta(k, signer, true)
  }

  /** `AccountMeta::new_readonly` */
  function Readonly(k: Key, signer: bool): AccountMeta {
    AccountMeta(k, signer, false)
  }

  datatype Instruction<+D> = Instruction(programId: Key, accounts: seq<AccountMeta>, data: D)
}
