/** The byte format of token program instructions. */
module TokenCodec {
  import opened Wrappers
  import opened Words

  datatype TokenInstruction =
    | InitializeMint(amount: u64, decimals: byte)
    | InitializeAccount
    | InitializeMultisig(m: byte)
    | Transfer(amount: u64)
    | Approve(amount: u64)
    | Revoke
    | SetOwner
    | MintTo(amount: u64)
    | Burn(amount: u64)
    | CloseAccount

  datatype ProgramError =
    | Custom(code: nat)
    | NotEnoughAccountKeys
    | MissingRequiredSignature

  // size_of::<TokenInstruction>() under repr(C): a four-byte tag, padding to the alignment
  // of u64, and the largest payload rounded up to that alignment.
  const BUFFER_LENGTH := 24

  /** `unpack` */
  function Unpack(input: seq<byte>): Outcome<TokenInstruction, ProgramError> {
    if |input| < 1 then Err(Custom(0))
    else
      match input[0]
      case 0 =>
        if |input| < 1 + 8 + 1 then Err(Custom(1))
        else Ok(InitializeMint(WordAt(input[1..9]), input[9]))
      case 1 => Ok(InitializeAccount)
      case 2 =>
        if |input| < 1 + 1 then Err(Custom(2))
        else Ok(InitializeMultisig(input[1]))
      case 3 =>
        if |input| < 1 + 8 then Err(Custom(3))
        else Ok(Transfer(WordAt(input[1..9])))
      case 4 =>
        if |input| < 1 + 8 then Err(Custom(4))
        else Ok(Approve(WordAt(input[1..9])))
      case 5 => Ok(Revoke)
      case 6 => Ok(SetOwner)
      case 7 =>
        if |input| < 1 + 8 then Err(Custom(5))
        else Ok(MintTo(WordAt(input[1..9])))
      case 8 =>
        if |input| < 1 + 8 then Err(Custom(6))
        else Ok(Burn(WordAt(input[1..9])))
      case 9 => Ok(CloseAccount)
      case _ => Err(Custom(7))
  }

  /** The grammar of the format: a tag byte and the payload fields in order. */
  function Meaningful(x: TokenInstruction): (bs: seq<byte>)
    ensures 1 <= |bs| <= 10
  {
    match x
    case InitializeMint(amount, decimals) => [0] + WordBytes(amount) + [decimals]
    case InitializeAccount => [1]
    case InitializeMultisig(m) => [2, m]
    case Transfer(amount) => [3] + WordBytes(amount)
    case Approve(amount) => [4] + WordBytes(amount)
    case Revoke => [5]
    case SetOwner => [6]
    case MintTo(amount) => [7] + WordBytes(amount)
    case Burn(amount) => [8] + WordBytes(amount)
    case CloseAccount => [9]
  }

  /** What `pack` leaves in its buffer. */
  function Packed(x: TokenInstruction): (bs: seq<byte>)
    ensures |bs| == BUFFER_LENGTH
  {
    Meaningful(x) + seq(BUFFER_LENGTH - |Meaningful(x)|, _ => 0)
  }

  /** `*(&mut output[at] as *mut u8 as *mut u64) = value` on a little-endian machine. */
  method WriteU64(output: array<byte>, at: nat, value: u64)
    requires at + 8 <= output.Length
    modifies output
    ensures output[..] == old(output[..at]) + WordBytes(value) + old(output[at + 8..])
    ensures var b: seq<int> := output[at..at + 8];
            value == b[0] + 0x100 * b[1] + 0x1_0000 * b[2] + 0x100_0000 * b[3]
                     + 0x1_0000_0000 * b[4] + 0x100_0000_0000 * b[5]
                     + 0x1_0000_0000_0000 * b[6] + 0x100_0000_0000_0000 * b[7]
  {
    var bytes := WordBytes(value);
    for k := 0 to 8
      invariant forall j | 0 <= j < output.Length ::
                  output[j] == if at <= j < at + k then bytes[j - at] else old(output[j])
    {
      output[at + k] := bytes[k];
    }
    WordBytesSum(value);
  }

  method PackAmount(output: array<byte>, tag: byte, amount: u64)
    requires output.Length == BUFFER_LENGTH && forall j | 0 <= j < output.Length :: output[j] == 0
    modifies output
    ensures output[..] == [tag] + WordBytes(amount) + seq(BUFFER_LENGTH - 9, _ => 0)
  {
    output[0] := tag;
    WriteU64(output, 1, amount);
  }

  /** `pack` */
  method Pack(x: TokenInstruction) returns (bytes: seq<byte>)
    ensures bytes == Packed(x)
  {
    var output := new byte[BUFFER_LENGTH](_ => 0);
    match x {
      case InitializeMint(amount, decimals) =>
        PackAmount(output, 0, amount);
        output[9] := decimals;
      case InitializeAccount =>
        output[0] := 1;
      case InitializeMultisig(m) =>
        output[0] := 2;
        output[1] := m;
      case Transfer(amount) =>
        PackAmount(output, 3, amount);
      case Approve(amount) =>
        PackAmount(output, 4, amount);
      case Revoke =>
        output[0] := 5;
      case SetOwner =>
        output[0] := 6;
      case MintTo(amount) =>
        PackAmount(output, 7, amount);
      case Burn(amount) =>
        PackAmount(output, 8, amount);
      case CloseAccount =>
        output[0] := 9;
    }
    bytes := output[..];
    assert bytes == Packed(x);
  }

  /** A buffer begins with a tag and an amount exactly when it is long enough and both can
      be read back at their offsets. */
  lemma {:induction false} AmountPrefix(input: seq<byte>, tag: byte, amount: u64)
    ensures [tag] + WordBytes(amount) <= input
       <==> |input| >= 9 && input[0] == tag && WordAt(input[1..9]) == amount
  {
    var prefix := [tag] + WordBytes(amount);
    assert prefix[1..] == WordBytes(amount);
    WordAtOfWordBytes(amount);
    if |input| >= 9 {
      assert input[..9] == [input[0]] + input[1..9];
      if prefix <= input {
        assert input[1..9] == prefix[1..];
      }
    }
  }

  lemma {:induction false} MintPrefix(input: seq<byte>, amount: u64, decimals: byte)
    ensures [0] + WordBytes(amount) + [decimals] <= input
       <==> [0] + WordBytes(amount) <= input && |input| >= 10 && input[9] == decimals
  {
    var front := [0] + WordBytes(amount);
    if front + [decimals] <= input {
      assert input[9] == (front + [decimals])[9];
      assert (front + [decimals])[..9] == front;
      assert input[..9] == front;
    } else if front <= input && |input| >= 10 {
      assert input[..10] == front + [input[9]];
    }
  }

  /** The decoder accepts exactly the buffers that begin with an instruction's meaningful
      bytes, and returns that instruction. */
  lemma {:induction false} UnpackAccepts(input: seq<byte>, x: TokenInstruction)
    ensures Unpack(input) == Ok(x) <==> Meaningful(x) <= input
  {
    match x
    case InitializeMint(amount, decimals) =>
      AmountPrefix(input, 0, amount);
      MintPrefix(input, amount, decimals);
    case Transfer(amount) => AmountPrefix(input, 3, amount);
    case Approve(amount) => AmountPrefix(input, 4, amount);
    case MintTo(amount) => AmountPrefix(input, 7, amount);
    case Burn(amount) => AmountPrefix(input, 8, amount);
    case InitializeAccount =>
    case InitializeMultisig(m) =>
    case Revoke =>
    case SetOwner =>
    case CloseAccount =>
  }

  /** Printing then parsing gives the instruction back, for every variant and payload. */
  lemma {:induction false} UnpackOfPacked(x: TokenInstruction)
    ensures Unpack(Packed(x)) == Ok(x)
  {
    UnpackAccepts(Packed(x), x);
  }

  /** What `unpack` reads, byte by byte. */
  lemma {:induction false} UnpackReads(input: seq<byte>, x: TokenInstruction)
    ensures var b: seq<int> := input;
            var amount :=
              if |input| < 9 then -1
              else b[1] + 0x100 * b[2] + 0x1_0000 * b[3] + 0x100_0000 * b[4]
                   + 0x1_0000_0000 * b[5] + 0x100_0000_0000 * b[6]
                   + 0x1_0000_0000_0000 * b[7] + 0x100_0000_0000_0000 * b[8];
            (Unpack(input) == Ok(x)
             <==>
             && input != []
             && match x
               case InitializeMint(a, d) => |input| >= 10 && input[0] == 0 && amount == a && input[9] == d
               case InitializeAccount => input[0] == 1
               case InitializeMultisig(m) => |input| >= 2 && input[0] == 2 && input[1] == m
               case Transfer(a) => input[0] == 3 && amount == a
               case Approve(a) => input[0] == 4 && amount == a
               case Revoke => input[0] == 5
               case SetOwner => input[0] == 6
               case MintTo(a) => input[0] == 7 && amount == a
               case Burn(a) => input[0] == 8 && amount == a
               case CloseAccount => input[0] == 9)
  {
    if |input| >= 9 {
      WordAtIsSum(input[1..9]);
    }
  }

  /** What `pack` writes, byte by byte: the tag, the amount least significant byte first,
      the one-byte fields, zeros up to twenty-four bytes. */
  lemma {:induction false} PackedReads(x: TokenInstruction)
    ensures var p := Packed(x);
            && |p| == 24
            && var b: seq<int> := p;
               var amount := b[1] + 0x100 * b[2] + 0x1_0000 * b[3] + 0x100_0000 * b[4]
                             + 0x1_0000_0000 * b[5] + 0x100_0000_0000 * b[6]
                             + 0x1_0000_0000_0000 * b[7] + 0x100_0000_0000_0000 * b[8];
               match x
               case InitializeMint(a, d) =>
                 b[0] == 0 && amount == a && b[9] == d && forall i | 10 <= i < 24 :: b[i] == 0
               case InitializeAccount => b[0] == 1 && forall i | 1 <= i < 24 :: b[i] == 0
               case InitializeMultisig(m) => b[0] == 2 && b[1] == m && forall i | 2 <= i < 24 :: b[i] == 0
               case Transfer(a) => b[0] == 3 && amount == a && forall i | 9 <= i < 24 :: b[i] == 0
               case Approve(a) => b[0] == 4 && amount == a && forall i | 9 <= i < 24 :: b[i] == 0
               case Revoke => b[0] == 5 && forall i | 1 <= i < 24 :: b[i] == 0
               case SetOwner => b[0] == 6 && forall i | 1 <= i < 24 :: b[i] == 0
               case MintTo(a) => b[0] == 7 && amount == a && forall i | 9 <= i < 24 :: b[i] == 0
               case Burn(a) => b[0] == 8 && amount == a && forall i | 9 <= i < 24 :: b[i] == 0
               case CloseAccount => b[0] == 9 && forall i | 1 <= i < 24 :: b[i] == 0
  {
    UnpackOfPacked(x);
    UnpackReads(Packed(x), x);
  }

  lemma {:induction false} PackedInjective(x: TokenInstruction, y: TokenInstruction)
    requires Packed(x) == Packed(y)
    ensures x == y
  {
    UnpackOfPacked(x);
    UnpackOfPacked(y);
  }

  /** Normal form: what follows the meaningful bytes of an accepted buffer is ignored, and
      packing the result reproduces those bytes followed by zeros. */
  lemma {:induction false} UnpackNormalForm(input: seq<byte>, suffix: seq<byte>)
    requires Unpack(input).Ok?
    ensures Unpack(input + suffix) == Unpack(input)
    ensures var x := Unpack(input).value;
            var n := |Meaningful(x)|;
            && n <= |input|
            && Packed(x)[..n] == input[..n]
            && forall i | n <= i < BUFFER_LENGTH :: Packed(x)[i] == 0
  {
    var x := Unpack(input).value;
    UnpackAccepts(input, x);
    assert Meaningful(x) <= input + suffix;
    UnpackAccepts(input + suffix, x);
  }

  /** Two accepted buffers mean the same exactly when their meaningful bytes agree. */
  lemma {:induction false} UnpackEqualIff(a: seq<byte>, b: seq<byte>)
    requires Unpack(a).Ok? && Unpack(b).Ok?
    ensures |Meaningful(Unpack(a).value)| <= |a| && |Meaningful(Unpack(b).value)| <= |b|
    ensures Unpack(a) == Unpack(b)
       <==> a[..|Meaningful(Unpack(a).value)|] == b[..|Meaningful(Unpack(b).value)|]
  {
    var x, y := Unpack(a).value, Unpack(b).value;
    UnpackAccepts(a, x);
    UnpackAccepts(b, y);
    if a[..|Meaningful(x)|] == b[..|Meaningful(y)|] {
      assert Meaningful(x) == Meaningful(y);
      UnpackAccepts(b, x);
    }
  }

  predicate TooShort(input: seq<byte>, tag: byte, needed: nat) {
    input != [] && input[0] == tag && |input| < needed
  }

  /** The rejected buffers, code by code: empty, too short for its tag, or an unknown tag.
      A buffer with a known tag is rejected exactly when it is shorter than the
      instructions with that tag. */
  lemma {:induction false} UnpackRejects(input: seq<byte>)
    ensures Unpack(input) == Err(Custom(0)) <==> input == []
    ensures Unpack(input) == Err(Custom(1)) <==> TooShort(input, 0, 10)
    ensures Unpack(input) == Err(Custom(2)) <==> TooShort(input, 2, 2)
    ensures Unpack(input) == Err(Custom(3)) <==> TooShort(input, 3, 9)
    ensures Unpack(input) == Err(Custom(4)) <==> TooShort(input, 4, 9)
    ensures Unpack(input) == Err(Custom(5)) <==> TooShort(input, 7, 9)
    ensures Unpack(input) == Err(Custom(6)) <==> TooShort(input, 8, 9)
    ensures Unpack(input) == Err(Custom(7)) <==> input != [] && input[0] > 9
    ensures Unpack(input).Err? ==> Unpack(input).error.Custom? && Unpack(input).error.code <= 7
    ensures !Unpack(input).Panic?
  {
  }

  /** The lengths needed are those of the meaningful bytes. */
  lemma {:induction false} RejectedIffShorter(input: seq<byte>, x: TokenInstruction)
    requires input != [] && Meaningful(x)[0] == input[0]
    ensures Unpack(input).Err? <==> |input| < |Meaningful(x)|
  {
  }
}
