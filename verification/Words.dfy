/** Little-endian views of unsigned machine integers. */
module Words {
  import opened Sequences

  type byte = x: int | 0 <= x < 256

  const U64_LIMIT: int := 0x1_0000_0000_0000_0000

  type u64 = x: int | 0 <= x < U64_LIMIT

  function Pow256(k: nat): (p: nat)
    ensures p > 0
  {
    if k == 0 then 1 else 256 * Pow256(k - 1)
  }

  lemma {:induction false} Pow256Of8()
    ensures Pow256(8) == U64_LIMIT
  {
    assert Pow256(4) == 0x1_0000_0000;
  }

  /** The k low-order bytes of x, least significant first. */
  function ToLE(x: nat, k: nat): (bs: seq<byte>)
    ensures |bs| == k
  {
    if k == 0 then [] else [x % 256] + ToLE(x / 256, k - 1)
  }

  function FromLE(bs: seq<byte>): nat {
    if bs == [] then 0 else bs[0] + 256 * FromLE(bs[1..])
  }

  lemma {:induction false} FromLEBound(bs: seq<byte>)
    ensures FromLE(bs) < Pow256(|bs|)
  {
    if bs != [] {
      FromLEBound(bs[1..]);
    }
  }

  lemma {:induction false} FromLEOfToLE(x: nat, k: nat)
    requires x < Pow256(k)
    ensures FromLE(ToLE(x, k)) == x
  {
    if k > 0 {
      FromLEOfToLE(x / 256, k - 1);
      assert ToLE(x, k)[1..] == ToLE(x / 256, k - 1);
    }
  }

  lemma {:induction false} ToLEOfFromLE(bs: seq<byte>)
    ensures ToLE(FromLE(bs), |bs|) == bs
  {
    if bs != [] {
      ToLEOfFromLE(bs[1..]);
      assert FromLE(bs) % 256 == bs[0] && FromLE(bs) / 256 == FromLE(bs[1..]);
    }
  }

  /** The eight bytes of a word in memory. */
  function WordBytes(w: u64): (bs: seq<byte>)
    ensures |bs| == 8
  {
    ToLE(w, 8)
  }

  /** The word stored in eight bytes of memory. */
  function WordAt(bs: seq<byte>): (w: u64)
    requires |bs| == 8
    ensures WordBytes(w) == bs
  {
    FromLEBound(bs);
    Pow256Of8();
    ToLEOfFromLE(bs);
    FromLE(bs)
  }

  lemma {:induction false} WordAtOfWordBytes(w: u64)
    ensures WordAt(WordBytes(w)) == w
  {
    Pow256Of8();
    FromLEOfToLE(w, 8);
  }

  /** The byte order, spelled out. */
  lemma {:induction false} WordAtIsSum(bs: seq<byte>)
    requires |bs| == 8
    ensures var b: seq<int> := bs;
            WordAt(bs) == b[0] + 0x100 * b[1] + 0x1_0000 * b[2] + 0x100_0000 * b[3]
                          + 0x1_0000_0000 * b[4] + 0x100_0000_0000 * b[5]
                          + 0x1_0000_0000_0000 * b[6] + 0x100_0000_0000_0000 * b[7]
  {
    var t1, t2, t3, t4 := bs[1..], bs[2..], bs[3..], bs[4..];
    var t5, t6, t7 := bs[5..], bs[6..], bs[7..];
    assert t1[1..] == t2 && t2[1..] == t3 && t3[1..] == t4;
    assert t4[1..] == t5 && t5[1..] == t6 && t6[1..] == t7 && t7[1..] == [];
    assert FromLE(t7) == bs[7] && FromLE(t6) == bs[6] + 256 * FromLE(t7);
    assert FromLE(t5) == bs[5] + 256 * FromLE(t6) && FromLE(t4) == bs[4] + 256 * FromLE(t5);
    assert FromLE(t3) == bs[3] + 256 * FromLE(t4) && FromLE(t2) == bs[2] + 256 * FromLE(t3);
    assert FromLE(t1) == bs[1] + 256 * FromLE(t2) && FromLE(bs) == bs[0] + 256 * FromLE(t1);
  }

  lemma {:induction false} WordBytesSum(w: u64)
    ensures var b: seq<int> := WordBytes(w);
            w == b[0] + 0x100 * b[1] + 0x1_0000 * b[2] + 0x100_0000 * b[3]
                 + 0x1_0000_0000 * b[4] + 0x100_0000_0000 * b[5]
                 + 0x1_0000_0000_0000 * b[6] + 0x100_0000_0000_0000 * b[7]
  {
    WordAtOfWordBytes(w);
    WordAtIsSum(WordBytes(w));
  }

  /** `transmute_to_bytes` on a slice of words. */
  function WordsToBytes(ws: seq<u64>): (bs: seq<byte>)
    ensures |bs| == 8 * |ws|
  {
    if ws == [] then [] else WordBytes(ws[0]) + WordsToBytes(ws[1..])
  }

  /** The words of a byte slice that holds a whole number of them. */
  function BytesToWords(bs: seq<byte>): (ws: seq<u64>)
    requires |bs| % 8 == 0
    ensures |bs| == 8 * |ws|
  {
    if bs == [] then [] else [WordAt(bs[..8])] + BytesToWords(bs[8..])
  }

  lemma {:induction false} BytesToWordsOfWordsToBytes(ws: seq<u64>)
    ensures BytesToWords(WordsToBytes(ws)) == ws
  {
    if ws != [] {
      var bs := WordsToBytes(ws);
      assert bs[..8] == WordBytes(ws[0]) && bs[8..] == WordsToBytes(ws[1..]);
      WordAtOfWordBytes(ws[0]);
      BytesToWordsOfWordsToBytes(ws[1..]);
    }
  }

  lemma {:induction false} WordsToBytesOfBytesToWords(bs: seq<byte>)
    requires |bs| % 8 == 0
    ensures WordsToBytes(BytesToWords(bs)) == bs
  {
    if bs != [] {
      WordsToBytesOfBytesToWords(bs[8..]);
      assert BytesToWords(bs)[1..] == BytesToWords(bs[8..]);
      assert bs == bs[..8] + bs[8..];
    }
  }

  lemma {:induction false} WordsToBytesOfConcat(a: seq<u64>, b: seq<u64>)
    ensures WordsToBytes(a + b) == WordsToBytes(a) + WordsToBytes(b)
  {
    if a == [] {
      assert a + b == b;
    } else {
      WordsToBytesOfConcat(a[1..], b);
      assert (a + b)[1..] == a[1..] + b && (a + b)[0] == a[0];
      Associative(WordBytes(a[0]), WordsToBytes(a[1..]), WordsToBytes(b));
    }
  }

  lemma {:induction false} WordOfBytes(bs: seq<byte>, k: nat)
    requires |bs| % 8 == 0 && 8 * k < |bs|
    ensures BytesToWords(bs)[k] == WordAt(bs[8 * k..8 * k + 8])
  {
    if k > 0 {
      WordOfBytes(bs[8..], k - 1);
      assert bs[8..][8 * (k - 1)..8 * (k - 1) + 8] == bs[8 * k..8 * k + 8];
    }
  }

  /** The words of a byte slice, spelled out. */
  lemma {:induction false} WordOfBytesSum(bs: seq<byte>, k: nat)
    requires |bs| % 8 == 0 && 8 * k < |bs|
    ensures var b: seq<int> := bs;
            BytesToWords(bs)[k]
              == b[8 * k] + 0x100 * b[8 * k + 1] + 0x1_0000 * b[8 * k + 2] + 0x100_0000 * b[8 * k + 3]
                 + 0x1_0000_0000 * b[8 * k + 4] + 0x100_0000_0000 * b[8 * k + 5]
                 + 0x1_0000_0000_0000 * b[8 * k + 6] + 0x100_0000_0000_0000 * b[8 * k + 7]
  {
    WordOfBytes(bs, k);
    WordAtIsSum(bs[8 * k..8 * k + 8]);
  }

  lemma {:induction false} WordsOfBytesSum(bs: seq<byte>, ws: seq<u64>)
    requires |bs| == 8 * |ws|
    ensures var b: seq<int> := bs;
            (bs == WordsToBytes(ws)
             <==>
            forall k | 0 <= k < |ws| ::
              ws[k] == b[8 * k] + 0x100 * b[8 * k + 1] + 0x1_0000 * b[8 * k + 2] + 0x100_0000 * b[8 * k + 3]
                       + 0x1_0000_0000 * b[8 * k + 4] + 0x100_0000_0000 * b[8 * k + 5]
                       + 0x1_0000_0000_0000 * b[8 * k + 6] + 0x100_0000_0000_0000 * b[8 * k + 7])
  {
    var read := BytesToWords(bs);
    forall k | 0 <= k < |ws|
      ensures var b: seq<int> := bs;
              read[k] == b[8 * k] + 0x100 * b[8 * k + 1] + 0x1_0000 * b[8 * k + 2] + 0x100_0000 * b[8 * k + 3]
                         + 0x1_0000_0000 * b[8 * k + 4] + 0x100_0000_0000 * b[8 * k + 5]
                         + 0x1_0000_0000_0000 * b[8 * k + 6] + 0x100_0000_0000_0000 * b[8 * k + 7]
    {
      WordOfBytesSum(bs, k);
    }
    BytesToWordsOfWordsToBytes(ws);
    WordsToBytesOfBytesToWords(bs);
    assert ws == read <==> forall k | 0 <= k < |ws| :: ws[k] == read[k];
  }

  /** Distinct word lists have distinct bytes. */
  lemma {:induction false} WordsToBytesInjective(a: seq<u64>, b: seq<u64>)
    requires WordsToBytes(a) == WordsToBytes(b)
    ensures a == b
  {
    BytesToWordsOfWordsToBytes(a);
    BytesToWordsOfWordsToBytes(b);
  }
}
