/** Framing of the accounts owned by the Serum program. */
module DexAccount {
  import opened Wrappers
  import opened Words

  // The bytes of "serum" and "padding", the framing the Serum program writes around
  // every account it owns.
  const HEAD: seq<byte> := [0x73, 0x65, 0x72, 0x75, 0x6d]
  const TAIL: seq<byte> := [0x70, 0x61, 0x64, 0x64, 0x69, 0x6e, 0x67]

  datatype TransmuteError =
    | NotEnoughBytes
    | InexactByteCount
    | Unaligned(source: seq<byte>)

  datatype PaddingError =
    | TooSmall
    | HeadMismatch
    | TailMismatch
    | BadPayload(cause: TransmuteError)

  /** `transmute_many_pedantic::<u64>`: at least one word, no bytes left over, and a
      source that happens to sit on a word boundary. */
  function TransmuteWords(bs: seq<byte>, aligned: bool): Outcome<seq<u64>, TransmuteError> {
    if |bs| < 8 then Err(NotEnoughBytes)
    else if |bs| % 8 != 0 then Err(InexactByteCount)
    else if !aligned then Err(Unaligned(bs))
    else Ok(BytesToWords(bs))
  }

  /** The error's `copy`: only a misaligned source can be recovered, by moving it. */
  function CopyUnaligned(e: TransmuteError): Outcome<seq<u64>, TransmuteError> {
    match e
    case Unaligned(source) =>
      TransmuteWords(source, true)
    case _ => Err(e)
  }

  /** `remove_dex_account_padding`. The first slice is taken before the length is
      checked, so fewer bytes than the head padding panic. */
  function RemovePadding(data: seq<byte>, aligned: bool): Outcome<seq<u64>, PaddingError> {
    if |data| < |HEAD| then Panic
    else
      var head := data[..|HEAD|];
      if |data| < |HEAD| + |TAIL| then Err(TooSmall)
      else if head != HEAD then Err(HeadMismatch)
      else
        var tail := data[|data| - |TAIL|..];
        if tail != TAIL then Err(TailMismatch)
        else
          var inner := data[|HEAD|..|data| - |TAIL|];
          match TransmuteWords(inner, aligned)
          case Ok(words) => Ok(words)
          case Err(e) =>
            (match CopyUnaligned(e)
             case Ok(words) => Ok(words)
             case Err(e') => Err(BadPayload(e'))
             case Panic => Panic)
          case Panic => Panic
  }

  /** An account that carries the payload `inner`. */
  function Frame(inner: seq<byte>): seq<byte> {
    HEAD + inner + TAIL
  }

  lemma {:induction false} SplitFrame(data: seq<byte>)
    requires |data| >= |HEAD| + |TAIL|
    ensures data[..|HEAD|] == HEAD && data[|data| - |TAIL|..] == TAIL
       <==> data == Frame(data[|HEAD|..|data| - |TAIL|])
  {
    var h, t := |HEAD|, |data| - |TAIL|;
    assert data == data[..h] + data[h..t] + data[t..];
    assert Frame(data[h..t])[..h] == HEAD && Frame(data[h..t])[t..] == TAIL;
  }

  /** Exactly the framed non-empty word lists are accepted, each yields its own words
      whichever path (borrow or copy) runs, and framing those words again gives the
      input back. */
  lemma {:induction false} RemovePaddingAccepts(data: seq<byte>, aligned: bool, words: seq<u64>)
    ensures RemovePadding(data, aligned) == Ok(words)
       <==> words != [] && data == Frame(WordsToBytes(words))
  {
    if |data| >= |HEAD| + |TAIL| {
      var inner := data[|HEAD|..|data| - |TAIL|];
      SplitFrame(data);
      if |inner| % 8 == 0 {
        WordsToBytesOfBytesToWords(inner);
      }
    }
    BytesToWordsOfWordsToBytes(words);
    var framed := Frame(WordsToBytes(words));
    assert framed[|HEAD|..|framed| - |TAIL|] == WordsToBytes(words);
    assert framed[..|HEAD|] == HEAD && framed[|framed| - |TAIL|..] == TAIL;
  }

  /** The same, byte by byte: "serum", the words in little-endian order, "padding". */
  lemma {:induction false} RemovePaddingReads(data: seq<byte>, aligned: bool, words: seq<u64>)
    ensures RemovePadding(data, aligned) == Ok(words)
       <==> && |words| > 0 && |data| == 8 * |words| + 12
            && data[..5] == [0x73, 0x65, 0x72, 0x75, 0x6d]
            && data[|data| - 7..] == [0x70, 0x61, 0x64, 0x64, 0x69, 0x6e, 0x67]
            && var b: seq<int> := data;
               forall k | 0 <= k < |words| ::
                 words[k] == b[8 * k + 5] + 0x100 * b[8 * k + 6] + 0x1_0000 * b[8 * k + 7] + 0x100_0000 * b[8 * k + 8]
                             + 0x1_0000_0000 * b[8 * k + 9] + 0x100_0000_0000 * b[8 * k + 10]
                             + 0x1_0000_0000_0000 * b[8 * k + 11] + 0x100_0000_0000_0000 * b[8 * k + 12]
  {
    RemovePaddingAccepts(data, aligned, words);
    if |data| == 8 * |words| + 12 {
      SplitFrame(data);
      WordsOfBytesSum(data[5..|data| - 7], words);
      assert data == Frame(WordsToBytes(words)) ==> data[5..|data| - 7] == WordsToBytes(words);
    }
  }

  /** Which inputs end in which way. The only panic is an input shorter than the head
      padding; the misaligned error never escapes. */
  lemma {:induction false} RemovePaddingRejects(data: seq<byte>, aligned: bool)
    ensures RemovePadding(data, aligned).Panic? <==> |data| < |HEAD|
    ensures RemovePadding(data, aligned) == Err(TooSmall) <==> |HEAD| <= |data| < |HEAD| + |TAIL|
    ensures RemovePadding(data, aligned) == Err(HeadMismatch)
       <==> |data| >= |HEAD| + |TAIL| && !(HEAD <= data)
    ensures RemovePadding(data, aligned) == Err(TailMismatch)
       <==> |data| >= |HEAD| + |TAIL| && HEAD <= data && data[|data| - |TAIL|..] != TAIL
    ensures RemovePadding(data, aligned) == Err(BadPayload(NotEnoughBytes))
       <==> exists inner :: data == Frame(inner) && |inner| < 8
    ensures RemovePadding(data, aligned) == Err(BadPayload(InexactByteCount))
       <==> exists inner :: data == Frame(inner) && |inner| > 8 && |inner| % 8 != 0
    ensures forall s :: RemovePadding(data, aligned) != Err(BadPayload(Unaligned(s)))
  {
    forall inner | data == Frame(inner)
      ensures |data| >= |HEAD| + |TAIL| && inner == data[|HEAD|..|data| - |TAIL|]
      ensures data[..|HEAD|] == HEAD && data[|data| - |TAIL|..] == TAIL
    {
    }
    if |data| >= |HEAD| + |TAIL| {
      SplitFrame(data);
    }
  }

  /** `create_dex_account` asks for the unpadded size plus twelve. */
  function AllocatedLength(unpadded: nat): nat {
    unpadded + 12
  }

  /** An account of the requested size that is accepted carries exactly the unpadded
      bytes, and an account built around a payload has the size that was requested. */
  lemma {:induction false} AllocationFitsFraming(data: seq<byte>, aligned: bool, unpadded: nat)
    requires RemovePadding(data, aligned).Ok?
    ensures |data| == AllocatedLength(unpadded)
       <==> 8 * |RemovePadding(data, aligned).value| == unpadded
  {
    RemovePaddingAccepts(data, aligned, RemovePadding(data, aligned).value);
  }
}
