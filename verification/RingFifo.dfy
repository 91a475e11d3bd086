/** The ring as its writer sees it: an element queue of bounded capacity. The writer is
    the on-chain program, so its two operations are assumptions about it. */
module RingFifo {
  import opened Arithmetic
  import opened Wrappers
  import opened Words
  import opened DexAccount
  import opened EventQueue

  datatype Ring<T> = Ring(cells: seq<T>, head: nat, count: nat)
  {
    predicate Valid() {
      head < |cells| && count <= |cells|
    }

    function Contents(): seq<T>
      requires Valid()
    {
      RingContents(cells, head, count)
    }
  }

  datatype Op<T> = Push(element: T) | Pop

  /** A push onto a full ring and a pop from an empty one are refused. */
  function RingStep<T>(r: Ring<T>, op: Op<T>): (r': Ring<T>)
    requires r.Valid()
    ensures r'.Valid() && |r'.cells| == |r.cells|
  {
    match op
    case Push(e) =>
      if r.count == |r.cells| then r
      else r.(cells := r.cells[(r.head + r.count) % |r.cells| := e], count := r.count + 1)
    case Pop =>
      if r.count == 0 then r
      else r.(head := (r.head + 1) % |r.cells|, count := r.count - 1)
  }

  function FifoStep<T>(q: seq<T>, capacity: nat, op: Op<T>): seq<T> {
    match op
    case Push(e) => if |q| >= capacity then q else q + [e]
    case Pop => if q == [] then q else q[1..]
  }

  function RunRing<T>(r: Ring<T>, ops: seq<Op<T>>): (r': Ring<T>)
    requires r.Valid()
    ensures r'.Valid() && |r'.cells| == |r.cells|
    decreases |ops|
  {
    if ops == [] then r else RunRing(RingStep(r, ops[0]), ops[1..])
  }

  function RunFifo<T>(q: seq<T>, capacity: nat, ops: seq<Op<T>>): seq<T>
    decreases |ops|
  {
    if ops == [] then q else RunFifo(FifoStep(q, capacity, ops[0]), capacity, ops[1..])
  }

  lemma {:induction false} RingStepRefines<T>(r: Ring<T>, op: Op<T>)
    requires r.Valid()
    ensures RingStep(r, op).Contents() == FifoStep(r.Contents(), |r.cells|, op)
  {
    match op
    case Push(e) =>
      if r.count < |r.cells| { PushAppends(r, e); }
    case Pop =>
      if r.count > 0 { PopDropsOldest(r); }
  }

  lemma {:induction false} PushAppends<T>(r: Ring<T>, e: T)
    requires r.Valid() && r.count < |r.cells|
    ensures RingStep(r, Push(e)).Contents() == r.Contents() + [e]
  {
    var r' := RingStep(r, Push(e));
    RingIndex(|r.cells|, r.head, r.count);
    forall i | 0 <= i < r'.count
      ensures r'.Contents()[i] == (r.Contents() + [e])[i]
    {
      ContentsAt(r', i);
      if i < r.count { ContentsAt(r, i); }
    }
  }

  lemma {:induction false} PopDropsOldest<T>(r: Ring<T>)
    requires r.Valid() && r.count > 0
    ensures RingStep(r, Pop).Contents() == r.Contents()[1..]
  {
    var r' := RingStep(r, Pop);
    if r.head + 1 < |r.cells| {
      DivModUnique(r.head + 1, |r.cells|, 0, r.head + 1);
    } else {
      DivModUnique(r.head + 1, |r.cells|, 1, 0);
    }
    forall i | 0 <= i < r'.count
      ensures r'.Contents()[i] == r.Contents()[1..][i]
    {
      ContentsAt(r', i);
      ContentsAt(r, i + 1);
    }
  }

  lemma {:induction false} ContentsAt<T>(r: Ring<T>, i: nat)
    requires r.Valid() && i < r.count
    ensures r.Contents()[i] == r.cells[if r.head + i < |r.cells| then r.head + i else r.head + i - |r.cells|]
  {
    RingIndex(|r.cells|, r.head, i);
  }

  /** Along every history of pushes and pops the ring holds what a plain bounded queue
      would hold. */
  lemma {:induction false} RingRefinesFifo<T>(r: Ring<T>, ops: seq<Op<T>>)
    requires r.Valid()
    ensures RunRing(r, ops).Contents() == RunFifo(r.Contents(), |r.cells|, ops)
    decreases |ops|
  {
    if ops != [] {
      RingStepRefines(r, ops[0]);
      RingRefinesFifo(RingStep(r, ops[0]), ops[1..]);
    }
  }

  // ---------- what the bounded queue does, in plain terms ----------

  function Pushes<T>(es: seq<T>): seq<Op<T>> {
    seq(|es|, i requires 0 <= i < |es| => Push(es[i]))
  }

  function Pops<T>(k: nat): seq<Op<T>> {
    seq(k, _ => Pop)
  }

  lemma {:induction false} RunFifoOfConcat<T>(q: seq<T>, capacity: nat, a: seq<Op<T>>, b: seq<Op<T>>)
    ensures RunFifo(q, capacity, a + b) == RunFifo(RunFifo(q, capacity, a), capacity, b)
    decreases |a|
  {
    if a == [] {
      assert a + b == b;
    } else {
      assert (a + b)[1..] == a[1..] + b;
      RunFifoOfConcat(FifoStep(q, capacity, a[0]), capacity, a[1..], b);
    }
  }

  lemma {:induction false} RunOfPushes<T>(q: seq<T>, capacity: nat, es: seq<T>)
    requires |q| <= capacity
    ensures RunFifo(q, capacity, Pushes(es)) == q + es[..Min(capacity - |q|, |es|)]
    decreases |es|
  {
    if es != [] {
      assert Pushes(es)[1..] == Pushes(es[1..]);
      RunOfPushes(FifoStep(q, capacity, Push(es[0])), capacity, es[1..]);
      if |q| < capacity {
        var m := Min(capacity - |q|, |es|);
        assert es[..m] == [es[0]] + es[1..][..m - 1];
      }
    }
  }

  lemma {:induction false} RunOfPops<T>(q: seq<T>, capacity: nat, k: nat)
    ensures RunFifo(q, capacity, Pops(k)) == q[Min(k, |q|)..]
    decreases k
  {
    if k > 0 {
      assert Pops<T>(k)[1..] == Pops<T>(k - 1);
      RunOfPops(FifoStep(q, capacity, Pop), capacity, k - 1);
    }
  }

  /** Of the elements pushed onto an empty queue the first ones fit, and pops take them
      away from the front. */
  lemma {:induction false} PushedThenPopped<T>(capacity: nat, es: seq<T>, k: nat)
    ensures var kept := if |es| < capacity then |es| else capacity;
            RunFifo([], capacity, Pushes(es) + Pops(k)) == es[if k < kept then k else kept..kept]
  {
    var kept := Min(capacity, |es|);
    RunFifoOfConcat([], capacity, Pushes(es), Pops(k));
    RunOfPushes([], capacity, es);
    RunOfPops(es[..kept], capacity, k);
    assert [] + es[..kept] == es[..kept];
  }

  ghost predicate AllWide(es: seq<Element>, w: nat) {
    forall e | e in es :: |e| == w
  }

  ghost predicate PushesWide(ops: seq<Op<Element>>, w: nat) {
    forall op | op in ops :: op.Push? ==> |op.element| == w
  }

  lemma {:induction false} RunKeepsWidth(r: Ring<Element>, ops: seq<Op<Element>>, w: nat)
    requires r.Valid() && AllWide(r.cells, w) && PushesWide(ops, w)
    ensures AllWide(RunRing(r, ops).cells, w)
    decreases |ops|
  {
    if ops != [] {
      assert ops[0] in ops;
      var r' := RingStep(r, ops[0]);
      forall e | e in r'.cells
        ensures |e| == w
      {
        var k :| 0 <= k < |r'.cells| && r'.cells[k] == e;
        assert e == r.cells[k] || (ops[0].Push? && e == ops[0].element);
      }
      RunKeepsWidth(r', ops[1..], w);
    }
  }

  /** The header of an account records the ring's head and count. */
  ghost predicate HeaderOf<T>(header: seq<u64>, r: Ring<T>, layout: Layout) {
    && |header| == layout.headerWords
    && header[layout.headAt] == r.head
    && header[layout.countAt] == r.count
  }

  function AccountBytes(header: seq<u64>, r: Ring<Element>, slack: seq<u64>): seq<byte> {
    Frame(WordsToBytes(QueueWords(header, r.cells, slack)))
  }

  /** Whatever was pushed and popped since the ring was empty, decoding the account's
      bytes gives the surviving elements in arrival order. */
  lemma {:induction false} EveryHistoryDecodes(r: Ring<Element>, ops: seq<Op<Element>>, header: seq<u64>,
                            slack: seq<u64>, aligned: bool, layout: Layout)
    requires r.Valid() && r.count == 0 && AllWide(r.cells, layout.elementWords)
    requires PushesWide(ops, layout.elementWords) && |slack| < layout.elementWords
    requires HeaderOf(header, RunRing(r, ops), layout)
    ensures DecodeAccount(AccountBytes(header, RunRing(r, ops), slack), aligned, layout)
         == Ok(RunFifo([], |r.cells|, ops))
  {
    var r' := RunRing(r, ops);
    RunKeepsWidth(r, ops, layout.elementWords);
    RingRefinesFifo(r, ops);
    assert r.Contents() == [];
    DecodeOfEncode(header, r'.cells, slack, aligned, layout);
  }
}
