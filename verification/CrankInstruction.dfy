/** The consume-events ("crank") instruction built from an event queue account. */
module CrankInstruction {
  import opened Wrappers
  import opened Words
  import opened Accounts
  import opened DexAccount
  import opened EventQueue
  import opened RingFifo

  /** An open-orders account named in an event: four words. */
  type Owner = o: seq<u64> | |o| == 4 witness [0, 0, 0, 0]

  const OWNER_AT := 6  // flags and padding, three amounts, a 128-bit order id come first
  const MAX_OWNERS := 32

  function OwnerOf(event: Element): Owner
    requires |event| == EVENT_QUEUE.elementWords
  {
    event[OWNER_AT..OWNER_AT + 4]
  }

  function OwnerKey(o: Owner): Key {
    WordsToBytes(o)
  }

  // ---------- the order on owners ----------

  /** Lexicographic order, as Rust derives it for arrays. */
  predicate Less(a: seq<u64>, b: seq<u64>)
    requires |a| == |b|
  {
    a != [] && (a[0] < b[0] || (a[0] == b[0] && Less(a[1..], b[1..])))
  }

  lemma {:induction false} LessTrichotomy(a: seq<u64>, b: seq<u64>)
    requires |a| == |b|
    ensures a == b ==> !Less(a, b)
    ensures a != b ==> (Less(a, b) <==> !Less(b, a))
  {
    if a != [] {
      LessTrichotomy(a[1..], b[1..]);
      assert a == [a[0]] + a[1..] && b == [b[0]] + b[1..];
    }
  }

  /** At the first difference the smaller word decides. */
  lemma {:induction false} LessMeaning(a: seq<u64>, b: seq<u64>)
    requires |a| == |b|
    ensures Less(a, b) <==> exists k | 0 <= k < |a| :: a[..k] == b[..k] && a[k] < b[k]
  {
    if a != [] {
      LessMeaning(a[1..], b[1..]);
      if Less(a, b) && a[0] == b[0] {
        var k :| 0 <= k < |a| - 1 && a[1..][..k] == b[1..][..k] && a[1..][k] < b[1..][k];
        assert a[..k + 1] == [a[0]] + a[1..][..k] && b[..k + 1] == [b[0]] + b[1..][..k];
        assert a[k + 1] < b[k + 1];
      }
      if k :| 0 <= k < |a| && a[..k] == b[..k] && a[k] < b[k] {
        if k > 0 {
          assert a[0] == a[..k][0] == b[..k][0] == b[0];
          assert a[1..][..k - 1] == a[..k][1..] && b[1..][..k - 1] == b[..k][1..];
          assert a[1..][k - 1] < b[1..][k - 1];
        }
      }
    }
  }

  lemma {:induction false} LessTransitive(a: seq<u64>, b: seq<u64>, c: seq<u64>)
    requires |a| == |b| == |c| && Less(a, b) && Less(b, c)
    ensures Less(a, c)
  {
    if a[0] == b[0] == c[0] {
      LessTransitive(a[1..], b[1..], c[1..]);
    }
  }

  ghost predicate Sorted(s: seq<Owner>) {
    forall i, j | 0 <= i < j < |s| :: !Less(s[j], s[i])
  }

  ghost predicate Increasing(s: seq<Owner>) {
    forall i, j | 0 <= i < j < |s| :: Less(s[i], s[j])
  }

  // ---------- the vector the owners are collected in ----------

  /** `dedup`: of each stretch of equal neighbours the first stays. */
  function Deduped(s: seq<Owner>): seq<Owner> {
    if |s| <= 1 then s
    else
      var rest := Deduped(s[..|s| - 1]);
      if s[|s| - 2] == s[|s| - 1] then rest else rest + [s[|s| - 1]]
  }

  class OwnerVec {
    var items: seq<Owner>

    constructor (items: seq<Owner>)
      ensures this.items == items
    {
      this.items := items;
    }

    /** Any sorting algorithm meets this contract in the same way: on a total order the
        sorted rearrangement is unique. */
    method SortUnstable()
      modifies this
      ensures Sorted(items) && multiset(items) == multiset(old(items))
    {
      var input := items;
      items := [];
      for n := 0 to |input|
        invariant Sorted(items) && multiset(items) == multiset(input[..n])
      {
        var k := InsertionPoint(items, input[n]);
        InsertKeepsSorted(items, k, input[n]);
        InsertKeepsElements(items, k, input, n);
        items := items[..k] + [input[n]] + items[k..];
      }
      assert input[..|input|] == input;
    }

    method Dedup()
      modifies this
      ensures items == Deduped(old(items))
    {
      var input := items;
      items := input[..Min(1, |input|)];
      var n := |items|;
      while n < |input|
        invariant Min(1, |input|) <= n <= |input|
        invariant items == Deduped(input[..n])
      {
        assert input[..n + 1][..n] == input[..n];
        if input[n - 1] != input[n] {
          items := items + [input[n]];
        }
        n := n + 1;
      }
      assert input[..|input|] == input;
    }

    method Truncate(n: nat)
      modifies this
      ensures items == old(items)[..Min(n, |old(items)|)]
    {
      if n < |items| {
        items := items[..n];
      }
    }
  }

  method InsertionPoint(s: seq<Owner>, x: Owner) returns (k: nat)
    ensures k <= |s| && (k > 0 ==> !Less(x, s[k - 1]))
    ensures forall j | k <= j < |s| :: Less(x, s[j])
  {
    k := |s|;
    while k > 0 && Less(x, s[k - 1])
      invariant 0 <= k <= |s|
      invariant forall j | k <= j < |s| :: Less(x, s[j])
    {
      k := k - 1;
    }
  }

  lemma {:induction false} InsertKeepsElements(s: seq<Owner>, k: nat, input: seq<Owner>, n: nat)
    requires k <= |s| && n < |input| && multiset(s) == multiset(input[..n])
    ensures multiset(s[..k] + [input[n]] + s[k..]) == multiset(input[..n + 1])
  {
    assert s == s[..k] + s[k..];
    assert input[..n + 1] == input[..n] + [input[n]];
  }

  lemma {:induction false} InsertKeepsSorted(s: seq<Owner>, k: nat, x: Owner)
    requires Sorted(s) && k <= |s|
    requires k > 0 ==> !Less(x, s[k - 1])
    requires forall j | k <= j < |s| :: Less(x, s[j])
    ensures Sorted(s[..k] + [x] + s[k..])
  {
    forall j | 0 <= j < k
      ensures !Less(x, s[j])
    {
      if j < k - 1 && Less(x, s[j]) {
        NotLessThrough(x, s[j], s[k - 1]);
      }
    }
    forall j | k <= j < |s|
      ensures !Less(s[j], x)
    {
      LessTrichotomy(x, s[j]);
    }
  }

  /** From x < y and y <= z follows x < z. */
  lemma {:induction false} NotLessThrough(x: Owner, y: Owner, z: Owner)
    requires Less(x, y) && !Less(z, y)
    ensures Less(x, z)
  {
    LessTrichotomy(y, z);
    if y != z {
      LessTransitive(x, y, z);
    }
  }

  lemma {:induction false} DedupedOfSorted(s: seq<Owner>)
    requires Sorted(s)
    ensures Increasing(Deduped(s))
    ensures forall x :: x in Deduped(s) <==> x in s
    ensures s != [] ==> Deduped(s) != [] && Deduped(s)[|Deduped(s)| - 1] == s[|s| - 1]
  {
    if |s| > 1 {
      var front, x := s[..|s| - 1], s[|s| - 1];
      DedupedOfSorted(front);
      assert s == front + [x];
      var rest := Deduped(front);
      if s[|s| - 2] != x {
        forall i | 0 <= i < |rest|
          ensures Less(rest[i], x)
        {
          var last := rest[|rest| - 1];
          LessTrichotomy(last, x);
          if i < |rest| - 1 { LessTransitive(rest[i], last, x); }
        }
      }
    }
  }

  // ---------- which owners are selected ----------

  function OwnerSet(events: seq<Element>): set<Owner>
    requires AllWide(events, EVENT_QUEUE.elementWords)
  {
    set e | e in events :: OwnerOf(e)
  }

  lemma {:induction false} OwnerSetRead(events: seq<Element>)
    requires AllWide(events, EVENT_QUEUE.elementWords)
    ensures OwnerSet(events) == set e | e in events :: e[6..10]
  {
    var S := set e | e in events :: e[6..10];
    forall e | e in events
      ensures OwnerOf(e) == e[6..10]
    {
    }
    assert forall x | x in OwnerSet(events) :: x in S;
  }

  /** `owners` lists the least members of S in increasing order, as many as allowed. */
  ghost predicate IsSelection(owners: seq<Owner>, S: set<Owner>) {
    && Increasing(owners)
    && |owners| == (if |S| < 32 then |S| else 32)
    && (forall x | x in owners :: x in S)
    && (forall x, y | x in S && x !in owners && y in owners :: Less(y, x))
  }

  lemma {:induction false} IncreasingSize(s: seq<Owner>)
    requires Increasing(s)
    ensures |(set x | x in s)| == |s|
  {
    if s != [] {
      var front, x := s[..|s| - 1], s[|s| - 1];
      IncreasingSize(front);
      assert s == front + [x];
      assert x !in front by {
        LessTrichotomy(x, x);
      }
      assert (set y | y in s) == (set y | y in front) + {x};
    } else {
      assert (set x | x in s) == {};
    }
  }

  lemma {:induction false} PrefixIsSelection(all: seq<Owner>, S: set<Owner>)
    requires Increasing(all) && forall x :: x in S <==> x in all
    ensures IsSelection(all[..Min(MAX_OWNERS, |all|)], S)
  {
    IncreasingSize(all);
    assert S == set x | x in all;
    var n := Min(MAX_OWNERS, |all|);
    assert forall m | 0 <= m < n :: all[m] in all[..n];
    forall x, y | x in S && x !in all[..n] && y in all[..n]
      ensures Less(y, x)
    {
      var i :| 0 <= i < |all| && all[i] == x;
      var j :| 0 <= j < n && all[j] == y;
    }
  }

  /** A set has only one selection. */
  lemma {:induction false} SelectionUnique(a: seq<Owner>, b: seq<Owner>, S: set<Owner>)
    requires IsSelection(a, S) && IsSelection(b, S)
    ensures a == b
  {
    if a != b {
      var k := FirstDifference(a, b, 0);
      LessTrichotomy(a[k], b[k]);
      SmallerCannotBeOmitted(a, b, k, S);
      SmallerCannotBeOmitted(b, a, k, S);
    }
  }

  lemma {:induction false} FirstDifference(a: seq<Owner>, b: seq<Owner>, from: nat) returns (k: nat)
    requires |a| == |b| && a != b && from <= |a| && a[..from] == b[..from]
    ensures k < |a| && a[..k] == b[..k] && a[k] != b[k]
    decreases |a| - from
  {
    assert a[..|a|] == a && b[..|b|] == b;
    if a[from] != b[from] {
      k := from;
    } else {
      assert a[..from + 1] == a[..from] + [a[from]] && b[..from + 1] == b[..from] + [b[from]];
      k := FirstDifference(a, b, from + 1);
    }
  }

  lemma {:induction false} SmallerCannotBeOmitted(a: seq<Owner>, b: seq<Owner>, k: nat, S: set<Owner>)
    requires IsSelection(a, S) && IsSelection(b, S)
    requires k < |a| == |b| && a[..k] == b[..k]
    ensures !Less(a[k], b[k])
  {
    LessTrichotomy(a[k], b[k]);
    LessTrichotomy(a[k], a[k]);
    assert a[k] in a && b[k] in b;
    if a[k] in b {
      var j :| 0 <= j < |b| && b[j] == a[k];
      if j < k {
        assert a[..k][j] == b[..k][j];
        LessTrichotomy(a[j], a[k]);
      }
    }
  }

  // ---------- the instruction ----------

  datatype MarketInstruction = ConsumeEvents(limit: nat)

  type Crank = Instruction<MarketInstruction>

  /** The arguments that do not come from the event queue. */
  datatype Wallets = Wallets(programId: Key, market: Key, eventQ: Key, coin: Key, pc: Key)

  datatype CrankError = FetchFailed | BadAccount(cause: PaddingError)

  function OwnerMetas(owners: seq<Owner>): (ms: seq<AccountMeta>)
    ensures |ms| == |owners|
  {
    seq(|owners|, i requires 0 <= i < |owners| => Writable(OwnerKey(owners[i]), false))
  }

  function FixedMetas(w: Wallets): seq<AccountMeta> {
    [Writable(w.market, false), Writable(w.eventQ, false), Writable(w.coin, false), Writable(w.pc, false)]
  }

  /** `consume_events_instruction` once the account bytes have been fetched (`None` when
      the fetch fails). */
  method ConsumeEventsInstruction(fetched: Option<seq<byte>>, aligned: bool, w: Wallets)
    returns (r: CrankResult)
    ensures fetched.None? ==> r == Err(FetchFailed)
    ensures fetched.Some? ==> IsCrank(DecodeAccount(fetched.value, aligned, EVENT_QUEUE), w, r)
  {
    if fetched.None? {
      return Err(FetchFailed);
    }
    var inner := RemovePadding(fetched.value, aligned);
    if !inner.Ok? {
      return if inner.Err? then Err(BadAccount(inner.error)) else Panic;
    }
    var parsed := ParseQueue(inner.value, EVENT_QUEUE);
    if !parsed.Ok? {
      return if parsed.Err? then Err(BadAccount(BadPayload(parsed.error))) else Panic;
    }
    var seg0, seg1 := parsed.value.seg0, parsed.value.seg1;
    if |seg0| + |seg1| == 0 {
      return Ok(None);
    }
    var events := seg0 + seg1;
    ParsedEventsAreWide(inner.value);
    var owners := SelectOwners(events);
    var metas := PushMetas(owners, w);
    r := Ok(Some(Instruction(w.programId, metas, ConsumeEvents(|metas| % 0x1_0000))));
    assert CrankFor(owners, events, w, r.value.value);
  }

  /** Collect, sort, dedup, truncate. */
  method SelectOwners(events: seq<Element>) returns (owners: seq<Owner>)
    requires AllWide(events, EVENT_QUEUE.elementWords)
    ensures IsSelection(owners, OwnerSet(events))
    ensures OwnerSet(events) == set e | e in events :: e[6..10]
  {
    var collected: seq<Owner> := seq(|events|, i requires 0 <= i < |events| => OwnerOf(events[i]));
    var vec := new OwnerVec(collected);
    vec.SortUnstable();
    CollectedSelection(events, collected, vec.items);
    vec.Dedup();
    vec.Truncate(MAX_OWNERS);
    owners := vec.items;
    OwnerSetRead(events);
  }

  /** One writable account per owner, then the four fixed ones. */
  method PushMetas(owners: seq<Owner>, w: Wallets) returns (metas: seq<AccountMeta>)
    ensures metas == OwnerMetas(owners) + FixedMetas(w)
    ensures var n := |metas|;
            && n == |owners| + 4
            && (forall i | 0 <= i < |owners| ::
                  metas[i] == AccountMeta(pubkey := WordsToBytes(owners[i]), isSigner := false, isWritable := true))
            && metas[n - 4] == AccountMeta(pubkey := w.market, isSigner := false, isWritable := true)
            && metas[n - 3] == AccountMeta(pubkey := w.eventQ, isSigner := false, isWritable := true)
            && metas[n - 2] == AccountMeta(pubkey := w.coin, isSigner := false, isWritable := true)
            && metas[n - 1] == AccountMeta(pubkey := w.pc, isSigner := false, isWritable := true)
  {
    metas := [];
    for i := 0 to |owners|
      invariant metas == OwnerMetas(owners[..i])
    {
      assert OwnerMetas(owners[..i + 1]) == OwnerMetas(owners[..i]) + [Writable(OwnerKey(owners[i]), false)];
      metas := metas + [Writable(OwnerKey(owners[i]), false)];
    }
    assert owners[..|owners|] == owners;
    var fixedKeys := [w.market, w.eventQ, w.coin, w.pc];
    for i := 0 to 4
      invariant metas == OwnerMetas(owners) + FixedMetas(w)[..i]
    {
      metas := metas + [Writable(fixedKeys[i], false)];
    }
  }

  lemma {:induction false} ParsedEventsAreWide(words: seq<u64>)
    requires ParseQueue(words, EVENT_QUEUE).Ok?
    ensures var q := ParseQueue(words, EVENT_QUEUE).value;
            AllWide(q.seg0 + q.seg1, EVENT_QUEUE.elementWords)
  {
    var cells := Chunks(words[EVENT_QUEUE.headerWords..], EVENT_QUEUE.elementWords);
    var q := ParseQueue(words, EVENT_QUEUE).value;
    forall e | e in q.seg0 + q.seg1
      ensures e in cells
    {
    }
  }

  lemma {:induction false} CollectedSelection(events: seq<Element>, collected: seq<Owner>, sorted: seq<Owner>)
    requires AllWide(events, EVENT_QUEUE.elementWords) && |collected| == |events|
    requires forall i | 0 <= i < |events| :: collected[i] == OwnerOf(events[i])
    requires Sorted(sorted) && multiset(sorted) == multiset(collected)
    ensures IsSelection(Deduped(sorted)[..Min(MAX_OWNERS, |Deduped(sorted)|)], OwnerSet(events))
  {
    DedupedOfSorted(sorted);
    forall x
      ensures x in OwnerSet(events) <==> x in Deduped(sorted)
    {
      assert x in sorted <==> x in multiset(sorted);
      assert x in collected <==> x in multiset(collected);
      if x in OwnerSet(events) {
        var e :| e in events && OwnerOf(e) == x;
        var i :| 0 <= i < |events| && events[i] == e;
        assert collected[i] == x;
      }
    }
    PrefixIsSelection(Deduped(sorted), OwnerSet(events));
  }

  // ---------- what callers may rely on ----------

  /** The instruction for a non-empty queue, in terms of the set of its owners alone. */
  ghost predicate CrankFor(owners: seq<Owner>, events: seq<Element>, w: Wallets, ix: Crank) {
    && AllWide(events, EVENT_QUEUE.elementWords)
    && IsSelection(owners, OwnerSet(events))
    && ix.programId == w.programId
    && ix.accounts == OwnerMetas(owners) + FixedMetas(w)
    && ix.data == ConsumeEvents(|ix.accounts| % 0x1_0000)
  }

  type Decoded = Outcome<seq<Element>, PaddingError>

  type CrankResult = Outcome<Option<Crank>, CrankError>

  /** The outcome that belongs to a decoded queue. */
  ghost predicate IsCrank(decoded: Decoded, w: Wallets, r: CrankResult) {
    match decoded
    case Panic => r == Panic
    case Err(e) => r == Err(BadAccount(e))
    case Ok(events) =>
      if events == [] then r == Ok(None)
      else r.Ok? && r.value.Some? && exists owners :: CrankFor(owners, events, w, r.value.value)
  }

  /** There is no instruction exactly when the header's count is zero. */
  lemma {:induction false} NoCrankWithoutEvents(data: seq<byte>, aligned: bool, w: Wallets, r: CrankResult)
    requires IsCrank(DecodeAccount(data, aligned, EVENT_QUEUE), w, r) && r.Ok?
    ensures RemovePadding(data, aligned).Ok?
    ensures var words := RemovePadding(data, aligned).value;
            |words| > 2 && (r.value.None? <==> words[2] == 0)
  {
    var words := RemovePadding(data, aligned).value;
    ParseQueueRejects(words, EVENT_QUEUE);
    ParseQueueMeaning(words, EVENT_QUEUE);
  }

  /** Shape of every instruction: between five and thirty-six accounts, no signer, the
      four fixed accounts last and in order, and an account count the u16 cast keeps. */
  lemma {:induction false} CrankShape(decoded: Decoded, w: Wallets, ix: Crank)
    requires IsCrank(decoded, w, Ok(Some(ix)))
    ensures var n, a := |ix.accounts|, ix.accounts;
            && 5 <= n <= 36
            && ix.programId == w.programId && ix.data == ConsumeEvents(n)
            && a[n - 4] == AccountMeta(pubkey := w.market, isSigner := false, isWritable := true)
            && a[n - 3] == AccountMeta(pubkey := w.eventQ, isSigner := false, isWritable := true)
            && a[n - 2] == AccountMeta(pubkey := w.coin, isSigner := false, isWritable := true)
            && a[n - 1] == AccountMeta(pubkey := w.pc, isSigner := false, isWritable := true)
            && forall m | m in a :: !m.isSigner && m.isWritable
  {
    var owners :| CrankFor(owners, decoded.value, w, ix);
    NoOwnersNoEvents(decoded.value);
    SelectionSize(owners, OwnerSet(decoded.value));
    MetasShape(owners, w, ix);
  }

  lemma {:induction false} SelectionSize(owners: seq<Owner>, S: set<Owner>)
    requires IsSelection(owners, S) && S != {}
    ensures 1 <= |owners| <= 32
  {
  }

  lemma {:induction false} MetasShape(owners: seq<Owner>, w: Wallets, ix: Crank)
    requires 1 <= |owners| <= 32
    requires ix.accounts == OwnerMetas(owners) + FixedMetas(w) && ix.data == ConsumeEvents(|ix.accounts| % 0x1_0000)
    ensures var n, a := |ix.accounts|, ix.accounts;
            && 5 <= n <= 36
            && ix.data == ConsumeEvents(n)
            && a[n - 4] == AccountMeta(pubkey := w.market, isSigner := false, isWritable := true)
            && a[n - 3] == AccountMeta(pubkey := w.eventQ, isSigner := false, isWritable := true)
            && a[n - 2] == AccountMeta(pubkey := w.coin, isSigner := false, isWritable := true)
            && a[n - 1] == AccountMeta(pubkey := w.pc, isSigner := false, isWritable := true)
            && forall m | m in a :: !m.isSigner && m.isWritable
  {
  }

  /** Of the 88 bytes of an event the owner's key is the stretch from 48 to 80. */
  lemma {:induction false} KeyOfEvent(event: Element)
    requires |event| == 11
    ensures OwnerOf(event) == event[6..10]
    ensures |WordsToBytes(event)| == 88 && OwnerKey(OwnerOf(event)) == WordsToBytes(event)[48..80]
  {
    var front, owner, price := event[..6], event[6..10], event[10..];
    var tail := owner + price;
    assert event == front + tail;
    WordsToBytesOfConcat(front, tail);
    WordsToBytesOfConcat(owner, price);
    assert WordsToBytes(tail)[..32] == WordsToBytes(owner);
    assert WordsToBytes(event)[48..80] == WordsToBytes(tail)[..32];
  }

  lemma {:induction false} KeysOfEvents(events: seq<Element>)
    requires AllWide(events, EVENT_QUEUE.elementWords)
    ensures forall e | e in events :: OwnerOf(e) == e[6..10]
    ensures forall e | e in events :: |WordsToBytes(e)| == 88
    ensures forall e | e in events :: AccountOf(e)
              == AccountMeta(pubkey := WordsToBytes(e)[48..80], isSigner := false, isWritable := true)
  {
    forall e | e in events
      ensures OwnerOf(e) == e[6..10] && |WordsToBytes(e)| == 88
      ensures AccountOf(e) == AccountMeta(pubkey := WordsToBytes(e)[48..80], isSigner := false, isWritable := true)
    {
      KeyOfEvent(e);
    }
  }

  lemma {:induction false} KeysOfOwners(owners: set<Owner>)
    ensures |set o | o in owners :: OwnerKey(o)| == |owners|
  {
    if o :| o in owners {
      var rest := owners - {o};
      KeysOfOwners(rest);
      forall x | x in rest
        ensures OwnerKey(x) != OwnerKey(o)
      {
        if OwnerKey(x) == OwnerKey(o) { WordsToBytesInjective(x, o); }
      }
      assert (set x | x in owners :: OwnerKey(x)) == (set x | x in rest :: OwnerKey(x)) + {OwnerKey(o)};
    }
  }

  /** There are as many owners as keys. */
  lemma {:induction false} OwnersAndKeys(events: seq<Element>)
    requires AllWide(events, EVENT_QUEUE.elementWords)
    ensures |OwnerSet(events)| == |set e | e in events :: WordsToBytes(e)[48..80]|
  {
    forall e | e in events
      ensures OwnerKey(OwnerOf(e)) == WordsToBytes(e)[48..80]
    {
      KeyOfEvent(e);
    }
    SameImage(events);
    KeysOfOwners(OwnerSet(events));
  }

  lemma {:induction false} SameImage(events: seq<Element>)
    requires AllWide(events, EVENT_QUEUE.elementWords)
    requires forall e | e in events :: OwnerKey(OwnerOf(e)) == WordsToBytes(e)[48..80]
    ensures (set o | o in OwnerSet(events) :: OwnerKey(o)) == set e | e in events :: WordsToBytes(e)[48..80]
  {
    var owners := set o | o in OwnerSet(events) :: OwnerKey(o);
    var keys: set<seq<byte>> := set e | e in events :: WordsToBytes(e)[48..80];
    forall k | k in keys
      ensures k in owners
    {
      var e :| e in events && WordsToBytes(e)[48..80] == k;
      assert OwnerOf(e) in OwnerSet(events);
    }
    forall k | k in owners
      ensures k in keys
    {
      var o :| o in OwnerSet(events) && OwnerKey(o) == k;
      var e :| e in events && OwnerOf(e) == o;
    }
  }

  /** The accounts before the fixed four. */
  function OwnerAccounts(ix: Crank): seq<AccountMeta>
    requires |ix.accounts| >= 4
  {
    ix.accounts[..|ix.accounts| - 4]
  }

  function AccountOf(event: Element): AccountMeta
    requires |event| == EVENT_QUEUE.elementWords
  {
    Writable(OwnerKey(OwnerOf(event)), false)
  }

  /** Those accounts belong to queued events, have distinct keys, and leave nobody out
      unless there are more than thirty-two distinct owners; then those left out come
      after everyone selected. */
  lemma {:induction false} CrankSelectsLeastOwners(decoded: Decoded, w: Wallets, ix: Crank)
    requires IsCrank(decoded, w, Ok(Some(ix)))
    ensures decoded.Ok? && AllWide(decoded.value, EVENT_QUEUE.elementWords)
    ensures var events := decoded.value;
            && |ix.accounts| == 4 + (if |OwnerSet(events)| < 32 then |OwnerSet(events)| else 32)
            && (forall m | m in OwnerAccounts(ix) :: exists e :: e in events && m == AccountOf(e))
            && (forall i, j | 0 <= i < j < |OwnerAccounts(ix)| ::
                  OwnerAccounts(ix)[i].pubkey != OwnerAccounts(ix)[j].pubkey)
            && (|OwnerSet(events)| <= 32 ==> forall e | e in events :: AccountOf(e) in OwnerAccounts(ix))
            && (forall e, f | e in events && f in events
                    && AccountOf(e) in OwnerAccounts(ix) && AccountOf(f) !in OwnerAccounts(ix)
                  :: Less(OwnerOf(e), OwnerOf(f)))
  {
    var owners :| CrankFor(owners, decoded.value, w, ix);
    assert OwnerAccounts(ix) == OwnerMetas(owners);
    OwnerMetasMeaning(owners, decoded.value);
  }

  /** The same in bytes: an owner's key is the stretch from 48 to 80 of its event's 88
      bytes, and there is one account for each different key, up to thirty-two, besides
      the fixed four. */
  lemma {:induction false} CrankKeys(decoded: Decoded, w: Wallets, ix: Crank)
    requires IsCrank(decoded, w, Ok(Some(ix)))
    ensures decoded.Ok? && AllWide(decoded.value, 11)
    ensures forall e | e in decoded.value :: |WordsToBytes(e)| == 88 && OwnerOf(e) == e[6..10]
    ensures forall e | e in decoded.value :: AccountOf(e)
              == AccountMeta(pubkey := WordsToBytes(e)[48..80], isSigner := false, isWritable := true)
    ensures var keys := set e | e in decoded.value :: WordsToBytes(e)[48..80];
            && |ix.accounts| == 4 + (if |keys| < 32 then |keys| else 32)
            && forall i | 0 <= i < |ix.accounts| - 4 :: ix.accounts[i].pubkey in keys
  {
    CrankSelectsLeastOwners(decoded, w, ix);
    OwnersAndKeys(decoded.value);
    KeysOfEvents(decoded.value);
    forall i | 0 <= i < |ix.accounts| - 4
      ensures exists e | e in decoded.value :: ix.accounts[i].pubkey == WordsToBytes(e)[48..80]
    {
      assert OwnerAccounts(ix)[i] in OwnerAccounts(ix);
    }
  }

  lemma {:induction false} OwnerMetasMeaning(owners: seq<Owner>, events: seq<Element>)
    requires AllWide(events, EVENT_QUEUE.elementWords) && IsSelection(owners, OwnerSet(events))
    ensures forall m | m in OwnerMetas(owners) :: exists e :: e in events && m == AccountOf(e)
    ensures forall i, j | 0 <= i < j < |owners| :: OwnerMetas(owners)[i].pubkey != OwnerMetas(owners)[j].pubkey
    ensures |OwnerSet(events)| <= 32 ==> forall e | e in events :: AccountOf(e) in OwnerMetas(owners)
    ensures forall e, f | e in events && f in events
                && AccountOf(e) in OwnerMetas(owners) && AccountOf(f) !in OwnerMetas(owners)
              :: Less(OwnerOf(e), OwnerOf(f))
  {
    var S := OwnerSet(events);
    forall x: Owner
      ensures Writable(OwnerKey(x), false) in OwnerMetas(owners) <==> x in owners
    {
      SelectedKey(owners, x);
    }
    forall i, j | 0 <= i < j < |owners|
      ensures OwnerMetas(owners)[i].pubkey != OwnerMetas(owners)[j].pubkey
    {
      DistinctKeys(owners[i], owners[j]);
    }
    forall m | m in OwnerMetas(owners)
      ensures exists e :: e in events && m == AccountOf(e)
    {
      var i :| 0 <= i < |owners| && OwnerMetas(owners)[i] == m;
      assert owners[i] in S;
      var e :| e in events && OwnerOf(e) == owners[i];
    }
    if |S| <= 32 {
      NobodyOmitted(owners, S);
    }
  }

  lemma {:induction false} DistinctKeys(x: Owner, y: Owner)
    requires Less(x, y)
    ensures OwnerKey(x) != OwnerKey(y)
  {
    LessTrichotomy(x, y);
    if OwnerKey(x) == OwnerKey(y) { WordsToBytesInjective(x, y); }
  }

  lemma {:induction false} SelectedKey(owners: seq<Owner>, x: Owner)
    ensures Writable(OwnerKey(x), false) in OwnerMetas(owners) <==> x in owners
  {
    if Writable(OwnerKey(x), false) in OwnerMetas(owners) {
      var i :| 0 <= i < |owners| && OwnerMetas(owners)[i] == Writable(OwnerKey(x), false);
      WordsToBytesInjective(owners[i], x);
    }
    if x in owners {
      var i :| 0 <= i < |owners| && owners[i] == x;
      assert OwnerMetas(owners)[i] == Writable(OwnerKey(x), false);
    }
  }

  lemma {:induction false} NobodyOmitted(owners: seq<Owner>, S: set<Owner>)
    requires IsSelection(owners, S) && |S| <= 32
    ensures forall x | x in S :: x in owners
  {
    IncreasingSize(owners);
    var T := set x | x in owners;
    if x :| x in S && x !in owners {
      SubsetSize(T + {x}, S);
    }
  }

  lemma {:induction false} SubsetSize(T: set<Owner>, S: set<Owner>)
    requires T <= S
    ensures |T| <= |S|
  {
    assert S == T + (S - T);
  }

  /** Canonical form: the outcome depends on the queue only through the set of its
      owners. Order, repetition, other event fields, alignment and the place of the
      queue in its ring make no difference. */
  lemma {:induction false} CrankCanonical(d: Decoded, d': Decoded, w: Wallets, r: CrankResult, r': CrankResult)
    requires IsCrank(d, w, r) && IsCrank(d', w, r') && SameOwners(d, d')
    ensures r == r' && r.Ok?
  {
    NoOwnersNoEvents(d.value);
    NoOwnersNoEvents(d'.value);
    if d.value != [] {
      var owners :| CrankFor(owners, d.value, w, r.value.value);
      var owners' :| CrankFor(owners', d'.value, w, r'.value.value);
      SelectionUnique(owners, owners', OwnerSet(d.value));
    }
  }

  ghost predicate SameOwners(d: Decoded, d': Decoded) {
    && d.Ok? && AllWide(d.value, EVENT_QUEUE.elementWords)
    && d'.Ok? && AllWide(d'.value, EVENT_QUEUE.elementWords)
    && OwnerSet(d.value) == OwnerSet(d'.value)
  }

  lemma {:induction false} NoOwnersNoEvents(events: seq<Element>)
    requires AllWide(events, EVENT_QUEUE.elementWords)
    ensures OwnerSet(events) == {} <==> events == []
  {
    if events != [] { assert OwnerOf(events[0]) in OwnerSet(events); }
  }

  /** The same over whole histories: two rings with any capacities and any pushes and
      pops behind them lead to the same outcome as soon as the queues they represent
      name the same owners. */
  lemma {:induction false} CrankOfHistories(
      ring: Ring<Element>, ops: seq<Op<Element>>, header: seq<u64>, slack: seq<u64>,
      ring': Ring<Element>, ops': seq<Op<Element>>, header': seq<u64>, slack': seq<u64>,
      aligned: bool, aligned': bool, w: Wallets, r: CrankResult, r': CrankResult)
    requires Written(ring, ops, header, slack) && Written(ring', ops', header', slack')
    requires SameOwners(Ok(RunFifo([], |ring.cells|, ops)), Ok(RunFifo([], |ring'.cells|, ops')))
    requires IsCrank(DecodeAccount(AccountBytes(header, RunRing(ring, ops), slack), aligned, EVENT_QUEUE), w, r)
    requires IsCrank(DecodeAccount(AccountBytes(header', RunRing(ring', ops'), slack'), aligned', EVENT_QUEUE), w, r')
    ensures r == r' && r.Ok?
  {
    EveryHistoryDecodes(ring, ops, header, slack, aligned, EVENT_QUEUE);
    EveryHistoryDecodes(ring', ops', header', slack', aligned', EVENT_QUEUE);
    CrankCanonical(Ok(RunFifo([], |ring.cells|, ops)), Ok(RunFifo([], |ring'.cells|, ops')), w, r, r');
  }

  /** An event queue account whose ring started empty and saw the operations `ops`. */
  ghost predicate Written(ring: Ring<Element>, ops: seq<Op<Element>>, header: seq<u64>, slack: seq<u64>) {
    && ring.Valid() && ring.count == 0 && AllWide(ring.cells, EVENT_QUEUE.elementWords)
    && PushesWide(ops, EVENT_QUEUE.elementWords) && |slack| < EVENT_QUEUE.elementWords
    && HeaderOf(header, RunRing(ring, ops), EVENT_QUEUE)
  }
}
