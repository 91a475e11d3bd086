/** Event and request queues: a header followed by a ring of fixed-width elements. */
module EventQueue {
  import opened Arithmetic
  import opened Wrappers
  import opened Words
  import opened DexAccount

  /** Widths are counted in 64-bit words. */
  datatype LayoutFields = LayoutFields(headerWords: nat, headAt: nat, countAt: nat, elementWords: nat)
  {
    predicate Valid() {
      headAt < headerWords && countAt < headerWords && headAt != countAt && elementWords > 0
    }
  }

  type Layout = l: LayoutFields | l.Valid() witness LayoutFields(2, 0, 1, 1)

  // account_flags, head, count, seq_num; then 88-byte events or 80-byte requests.
  const EVENT_QUEUE: Layout := LayoutFields(4, 1, 2, 11)
  const REQUEST_QUEUE: Layout := LayoutFields(4, 1, 2, 10)

  type Element = seq<u64>

  datatype Segments = Segments(header: seq<u64>, seg0: seq<Element>, seg1: seq<Element>)

  /** `transmute_many` with the single-many guard: whole elements, slack ignored. */
  function Chunks(ws: seq<u64>, w: nat): (es: seq<Element>)
    requires w > 0
    ensures forall e | e in es :: |e| == w
  {
    if |ws| < w then [] else [ws[..w]] + Chunks(ws[w..], w)
  }

  function Flatten(es: seq<Element>): seq<u64> {
    if es == [] then [] else es[0] + Flatten(es[1..])
  }

  function Min(a: nat, b: nat): nat {
    if a <= b then a else b
  }

  /** `parse_event_queue` and `parse_req_queue`, which differ only in the layout. */
  function ParseQueue(words: seq<u64>, layout: Layout): Outcome<Segments, TransmuteError> {
    if |words| < layout.headerWords then Panic
    else
      var header := words[..layout.headerWords];
      var body := words[layout.headerWords..];
      if |body| < layout.elementWords then Err(NotEnoughBytes)
      else
        var elements := Chunks(body, layout.elementWords);
        var head: nat, count: nat := header[layout.headAt], header[layout.countAt];
        if head > |elements| then Panic
        else
          var tailSeg, headSeg := elements[..head], elements[head..];
          var headLen := Min(|headSeg|, count);
          var tailLen := count - headLen;
          if tailLen > |tailSeg| then Panic
          else Ok(Segments(header, headSeg[..headLen], tailSeg[..tailLen]))
  }

  /** What a ring of cells holds, oldest element first. */
  function RingContents<T>(cells: seq<T>, head: nat, count: nat): (es: seq<T>)
    requires |cells| > 0 || count == 0
    ensures |es| == count
  {
    seq(count, i requires 0 <= i < count => cells[(head + i) % |cells|])
  }

  /** The elements of the ring are the body cut at every multiple of the width. */
  lemma {:induction false} ChunkAt(ws: seq<u64>, w: nat, k: nat, at: nat)
    requires w > 0 && k < |Chunks(ws, w)| && at == k * w
    ensures at + w <= |ws| && Chunks(ws, w)[k] == ws[at..at + w]
  {
    TimesIsProduct(k, w);
    ChunkAtTimes(ws, w, k);
  }

  lemma {:induction false} ChunkAtTimes(ws: seq<u64>, w: nat, k: nat)
    requires w > 0 && k < |Chunks(ws, w)|
    ensures Times(k, w) + w <= |ws| && Chunks(ws, w)[k] == ws[Times(k, w)..Times(k, w) + w]
  {
    if k > 0 {
      ChunkAtTimes(ws[w..], w, k - 1);
      ShiftedSlice(ws, w, Times(k - 1, w), w);
    }
  }

  lemma {:induction false} ShiftedSlice(ws: seq<u64>, offset: nat, at: nat, n: nat)
    requires offset + at + n <= |ws|
    ensures ws[offset..][at..at + n] == ws[at + offset..at + offset + n]
  {
  }

  /** There are as many as fit: the floor of the body length over the width. */
  lemma {:induction false} ChunkCount(ws: seq<u64>, w: nat)
    requires w > 0
    ensures |Chunks(ws, w)| == |ws| / w
  {
    ChunkQuotient(ws, w);
    QuotientIsDivision(|ws|, w);
  }

  lemma {:induction false} ChunkQuotient(ws: seq<u64>, w: nat)
    requires w > 0
    ensures |Chunks(ws, w)| == Quotient(|ws|, w)
  {
    if |ws| >= w {
      ChunkQuotient(ws[w..], w);
    }
  }

  /** Reading a ring in two segments gives the queue it stands for; success is decided
      by the header alone once there is one element. */
  lemma {:induction false} ParseQueueMeaning(words: seq<u64>, layout: Layout)
    requires |words| >= layout.headerWords + layout.elementWords
    ensures var head, count := words[layout.headAt], words[layout.countAt];
            var cells := Chunks(words[layout.headerWords..], layout.elementWords);
            && |cells| == (|words| - layout.headerWords) / layout.elementWords
            && |cells| > 0
            && (ParseQueue(words, layout).Ok? <==> head <= |cells| && count <= |cells|)
            && (ParseQueue(words, layout).Ok? ==>
                  var q := ParseQueue(words, layout).value;
                  && q.header == words[..layout.headerWords]
                  && q.seg0 + q.seg1 == RingContents(cells, head, count))
  {
    ParseOfRing(words, layout);
    ChunkCount(words[layout.headerWords..], layout.elementWords);
  }

  lemma {:induction false} ParseOfRing(words: seq<u64>, layout: Layout)
    requires |words| >= layout.headerWords + layout.elementWords
    ensures var head, count := words[layout.headAt], words[layout.countAt];
            var cells := Chunks(words[layout.headerWords..], layout.elementWords);
            && |cells| > 0
            && (ParseQueue(words, layout).Ok? <==> head <= |cells| && count <= |cells|)
            && (ParseQueue(words, layout).Ok? ==>
                  var q := ParseQueue(words, layout).value;
                  && q.header == words[..layout.headerWords]
                  && q.seg0 + q.seg1 == RingContents(cells, head, count))
  {
    var head: nat, count: nat := words[layout.headAt], words[layout.countAt];
    var cells := Chunks(words[layout.headerWords..], layout.elementWords);
    if head <= |cells| && count <= |cells| {
      TwoSegments(cells, head, count);
    }
  }

  lemma {:induction false} TwoSegments<T>(cells: seq<T>, head: nat, count: nat)
    requires head <= |cells| && count <= |cells| && |cells| > 0
    ensures var headLen := Min(|cells| - head, count);
            cells[head..][..headLen] + cells[..head][..count - headLen] == RingContents(cells, head, count)
  {
    var headLen := Min(|cells| - head, count);
    var joined := cells[head..][..headLen] + cells[..head][..count - headLen];
    forall i | 0 <= i < |joined|
      ensures joined[i] == RingContents(cells, head, count)[i]
    {
      RingIndex(|cells|, head, i);
    }
  }

  lemma {:induction false} RingIndex(n: nat, head: nat, i: nat)
    requires head <= n && i < n
    ensures (head + i) % n == if head + i < n then head + i else head + i - n
  {
    if head + i < n {
      DivModUnique(head + i, n, 0, head + i);
    } else {
      DivModUnique(head + i, n, 1, head + i - n);
    }
  }

  /** The error cases: a short header panics, a ring without one element is an error,
      and a header that points outside the ring panics. */
  lemma {:induction false} ParseQueueRejects(words: seq<u64>, layout: Layout)
    ensures ParseQueue(words, layout).Err?
       <==> layout.headerWords <= |words| < layout.headerWords + layout.elementWords
    ensures ParseQueue(words, layout).Err? ==> ParseQueue(words, layout) == Err(NotEnoughBytes)
    ensures ParseQueue(words, layout).Panic?
       <==> || |words| < layout.headerWords
            || (&& |words| >= layout.headerWords + layout.elementWords
                && var cap := (|words| - layout.headerWords) / layout.elementWords;
                   words[layout.headAt] > cap || words[layout.countAt] > cap)
  {
    if |words| >= layout.headerWords + layout.elementWords {
      ParseQueueMeaning(words, layout);
    }
  }

  /** The words of a queue account: header, ring cells, slack too short for a cell. */
  function QueueWords(header: seq<u64>, cells: seq<Element>, slack: seq<u64>): seq<u64> {
    header + Flatten(cells) + slack
  }

  lemma {:induction false} ChunksOfFlatten(cells: seq<Element>, slack: seq<u64>, w: nat)
    requires w > 0 && |slack| < w
    requires forall e | e in cells :: |e| == w
    ensures Chunks(Flatten(cells) + slack, w) == cells
  {
    if cells == [] {
      assert Flatten(cells) + slack == slack;
    } else {
      var ws := Flatten(cells) + slack;
      assert ws[..w] == cells[0];
      assert ws[w..] == Flatten(cells[1..]) + slack;
      ChunksOfFlatten(cells[1..], slack, w);
    }
  }

  lemma {:induction false} FlattenLength(cells: seq<Element>, w: nat)
    requires cells != [] && forall e | e in cells :: |e| == w
    ensures |Flatten(cells)| >= w
  {
  }

  /** The two segments chained, as every caller reads them. */
  function ParseElements(words: seq<u64>, layout: Layout): Outcome<seq<Element>, PaddingError> {
    match ParseQueue(words, layout)
    case Ok(q) => Ok(q.seg0 + q.seg1)
    case Err(e) => Err(BadPayload(e))
    case Panic => Panic
  }

  /** The decoder run on an account's bytes. */
  function DecodeAccount(data: seq<byte>, aligned: bool, layout: Layout): Outcome<seq<Element>, PaddingError> {
    match RemovePadding(data, aligned)
    case Ok(words) => ParseElements(words, layout)
    case Err(e) => Err(e)
    case Panic => Panic
  }

  lemma {:induction false} DecodeFramed(words: seq<u64>, aligned: bool, layout: Layout)
    requires words != []
    ensures DecodeAccount(Frame(WordsToBytes(words)), aligned, layout) == ParseElements(words, layout)
  {
    RemovePaddingAccepts(Frame(WordsToBytes(words)), aligned, words);
  }

  /** End to end: a queue written as words, then bytes, then framed, decodes to exactly
      the queue it stands for. */
  lemma {:induction false} DecodeOfEncode(header: seq<u64>, cells: seq<Element>, slack: seq<u64>, aligned: bool,
                                          layout: Layout)
    requires |header| == layout.headerWords && |slack| < layout.elementWords
    requires cells != [] && forall e | e in cells :: |e| == layout.elementWords
    requires header[layout.headAt] <= |cells| && header[layout.countAt] <= |cells|
    ensures DecodeAccount(Frame(WordsToBytes(QueueWords(header, cells, slack))), aligned, layout)
         == Ok(RingContents(cells, header[layout.headAt], header[layout.countAt]))
  {
    ParseOfQueueWords(header, cells, slack, layout);
    DecodeFramed(QueueWords(header, cells, slack), aligned, layout);
  }

  lemma {:induction false} QueueWordsParts(header: seq<u64>, cells: seq<Element>, slack: seq<u64>)
    ensures var words := QueueWords(header, cells, slack);
            && |words| == |header| + |Flatten(cells)| + |slack|
            && words[|header|..] == Flatten(cells) + slack
            && forall i | 0 <= i < |header| :: words[i] == header[i]
  {
    assert QueueWords(header, cells, slack) == header + (Flatten(cells) + slack);
  }

  lemma {:induction false} ParseOfQueueWords(header: seq<u64>, cells: seq<Element>, slack: seq<u64>, layout: Layout)
    requires |header| == layout.headerWords && |slack| < layout.elementWords
    requires cells != [] && forall e | e in cells :: |e| == layout.elementWords
    requires header[layout.headAt] <= |cells| && header[layout.countAt] <= |cells|
    ensures QueueWords(header, cells, slack) != []
    ensures ParseElements(QueueWords(header, cells, slack), layout)
         == Ok(RingContents(cells, header[layout.headAt], header[layout.countAt]))
  {
    QueueWordsParts(header, cells, slack);
    FlattenLength(cells, layout.elementWords);
    ChunksOfFlatten(cells, slack, layout.elementWords);
    ParseOfCells(QueueWords(header, cells, slack), cells, layout);
  }

  lemma {:induction false} ParseOfCells(words: seq<u64>, cells: seq<Element>, layout: Layout)
    requires |words| >= layout.headerWords + layout.elementWords
    requires Chunks(words[layout.headerWords..], layout.elementWords) == cells
    requires words[layout.headAt] <= |cells| && words[layout.countAt] <= |cells|
    ensures cells != []
    ensures ParseElements(words, layout) == Ok(RingContents(cells, words[layout.headAt], words[layout.countAt]))
  {
    ParseOfRing(words, layout);
  }

  lemma {:induction false} Capacity(words: seq<u64>, layout: Layout) returns (cap: nat)
    requires |words| >= layout.headerWords + layout.elementWords
    ensures cap == (|words| - layout.headerWords) / layout.elementWords
    ensures cap == |Chunks(words[layout.headerWords..], layout.elementWords)|
    ensures ParseElements(words, layout).Ok? <==> words[layout.headAt] <= cap && words[layout.countAt] <= cap
    ensures ParseElements(words, layout).Ok? ==>
              |ParseElements(words, layout).value| == words[layout.countAt] <= cap && words[layout.headAt] <= cap
  {
    cap := |Chunks(words[layout.headerWords..], layout.elementWords)|;
    ParseQueueMeaning(words, layout);
  }

  /** Element i of the queue is the cell i places after the head, around the ring. */
  lemma {:induction false} CellRead(words: seq<u64>, layout: Layout, i: nat, cap: nat) returns (cell: nat)
    requires |words| >= layout.headerWords + layout.elementWords
    requires cap == |Chunks(words[layout.headerWords..], layout.elementWords)|
    requires ParseElements(words, layout).Ok? && i < |ParseElements(words, layout).value|
    ensures var position := words[layout.headAt] + i;
            cell == if position < cap then position else position - cap
    ensures var at := layout.headerWords + Times(cell, layout.elementWords);
            at + layout.elementWords <= |words|
            && ParseElements(words, layout).value[i] == words[at..at + layout.elementWords]
  {
    var cells := Chunks(words[layout.headerWords..], layout.elementWords);
    QueueContents(words, layout);
    cell := RingCell(cells, words[layout.headAt], words[layout.countAt], i);
    CellOfBody(words, layout.headerWords, layout.elementWords, cell);
  }

  lemma {:induction false} QueueContents(words: seq<u64>, layout: Layout)
    requires |words| >= layout.headerWords + layout.elementWords && ParseElements(words, layout).Ok?
    ensures var cells := Chunks(words[layout.headerWords..], layout.elementWords);
            && words[layout.headAt] <= |cells| && words[layout.countAt] <= |cells| && |cells| > 0
            && ParseElements(words, layout).value == RingContents(cells, words[layout.headAt], words[layout.countAt])
  {
    ParseOfRing(words, layout);
  }

  lemma {:induction false} RingCell<T>(cells: seq<T>, head: nat, count: nat, i: nat) returns (cell: nat)
    requires head <= |cells| && i < count <= |cells|
    ensures cell == (if head + i < |cells| then head + i else head + i - |cells|) && cell < |cells|
    ensures RingContents(cells, head, count)[i] == cells[cell]
  {
    RingIndex(|cells|, head, i);
    cell := (head + i) % |cells|;
  }

  lemma {:induction false} CellOfBody(words: seq<u64>, h: nat, w: nat, cell: nat)
    requires w > 0 && h <= |words| && cell < |Chunks(words[h..], w)|
    ensures h + Times(cell, w) + w <= |words|
    ensures Chunks(words[h..], w)[cell] == words[h + Times(cell, w)..h + Times(cell, w) + w]
  {
    ChunkAtTimes(words[h..], w, cell);
    ShiftedSlice(words, h, Times(cell, w), w);
  }

  lemma {:induction false} EventRead(words: seq<u64>, i: nat, cap: nat)
    requires |words| >= 15 && cap == |Chunks(words[4..], 11)|
    requires ParseElements(words, EVENT_QUEUE).Ok? && i < |ParseElements(words, EVENT_QUEUE).value|
    ensures var cell := if words[1] + i < cap then words[1] + i else words[1] + i - cap;
            && 0 <= cell && 15 + 11 * cell <= |words|
            && ParseElements(words, EVENT_QUEUE).value[i] == words[4 + 11 * cell..15 + 11 * cell]
  {
    var cell := CellRead(words, EVENT_QUEUE, i, cap);
    TimesIsProduct(cell, 11);
  }

  /** The event queue in words: a header of four with the head second and the count third,
      then cells of eleven. */
  lemma {:induction false} EventsRead(words: seq<u64>)
    ensures ParseElements(words, EVENT_QUEUE).Ok?
       <==> |words| >= 15 && words[1] <= (|words| - 4) / 11 && words[2] <= (|words| - 4) / 11
    ensures ParseElements(words, EVENT_QUEUE).Ok? ==>
              var es, cap := ParseElements(words, EVENT_QUEUE).value, (|words| - 4) / 11;
              && |es| == words[2]
              && forall i | 0 <= i < |es| ::
                   var cell := if words[1] + i < cap then words[1] + i else words[1] + i - cap;
                   0 <= cell && 15 + 11 * cell <= |words| && es[i] == words[4 + 11 * cell..15 + 11 * cell]
  {
    if |words| >= 15 {
      var cap := Capacity(words, EVENT_QUEUE);
      if ParseElements(words, EVENT_QUEUE).Ok? {
        var es := ParseElements(words, EVENT_QUEUE).value;
        forall i | 0 <= i < |es|
          ensures var cell := if words[1] + i < cap then words[1] + i else words[1] + i - cap;
                  0 <= cell && 15 + 11 * cell <= |words| && es[i] == words[4 + 11 * cell..15 + 11 * cell]
        {
          EventRead(words, i, cap);
        }
      }
    }
  }

  lemma {:induction false} RequestRead(words: seq<u64>, i: nat, cap: nat)
    requires |words| >= 14 && cap == |Chunks(words[4..], 10)|
    requires ParseElements(words, REQUEST_QUEUE).Ok? && i < |ParseElements(words, REQUEST_QUEUE).value|
    ensures var cell := if words[1] + i < cap then words[1] + i else words[1] + i - cap;
            && 0 <= cell && 14 + 10 * cell <= |words|
            && ParseElements(words, REQUEST_QUEUE).value[i] == words[4 + 10 * cell..14 + 10 * cell]
  {
    var cell := CellRead(words, REQUEST_QUEUE, i, cap);
    TimesIsProduct(cell, 10);
  }

  /** The request queue: the same with cells of ten. */
  lemma {:induction false} RequestsRead(words: seq<u64>)
    ensures ParseElements(words, REQUEST_QUEUE).Ok?
       <==> |words| >= 14 && words[1] <= (|words| - 4) / 10 && words[2] <= (|words| - 4) / 10
    ensures ParseElements(words, REQUEST_QUEUE).Ok? ==>
              var es, cap := ParseElements(words, REQUEST_QUEUE).value, (|words| - 4) / 10;
              && |es| == words[2]
              && forall i | 0 <= i < |es| ::
                   var cell := if words[1] + i < cap then words[1] + i else words[1] + i - cap;
                   0 <= cell && 14 + 10 * cell <= |words| && es[i] == words[4 + 10 * cell..14 + 10 * cell]
  {
    if |words| >= 14 {
      var cap := Capacity(words, REQUEST_QUEUE);
      if ParseElements(words, REQUEST_QUEUE).Ok? {
        var es := ParseElements(words, REQUEST_QUEUE).value;
        forall i | 0 <= i < |es|
          ensures var cell := if words[1] + i < cap then words[1] + i else words[1] + i - cap;
                  0 <= cell && 14 + 10 * cell <= |words| && es[i] == words[4 + 10 * cell..14 + 10 * cell]
        {
          RequestRead(words, i, cap);
        }
      }
    }
  }

  /** The queues of a freshly listed market: accounts allocated for 2^20 and 640 bytes
      hold 11915 events and 7 requests. */
  lemma {:induction false} ListedQueueCapacity(data: seq<byte>, aligned: bool)
    requires RemovePadding(data, aligned).Ok?
    ensures var words := RemovePadding(data, aligned).value;
            && (|data| == AllocatedLength(0x10_0000) ==>
                  |words| >= 4 && |Chunks(words[4..], EVENT_QUEUE.elementWords)| == 11915)
            && (|data| == AllocatedLength(640) ==>
                  |words| >= 4 && |Chunks(words[4..], REQUEST_QUEUE.elementWords)| == 7)
  {
    var words := RemovePadding(data, aligned).value;
    AllocationFitsFraming(data, aligned, 0x10_0000);
    AllocationFitsFraming(data, aligned, 640);
    if |words| >= 4 {
      ChunkCount(words[4..], EVENT_QUEUE.elementWords);
      ChunkCount(words[4..], REQUEST_QUEUE.elementWords);
    }
  }
}
