/** How much work the batch sender can be made to do: for every list length the exact
    maximum of its passes and of its transmissions. */
module BatchSenderBounds {
  import opened Arithmetic
  import opened Wrappers
  import opened BatchSender

  /** The most transmissions a pass can find already made when it begins. */
  function SendsBefore(limit: nat): nat {
    MaxPasses(limit) - 1
  }

  /** The first pass transmits every record, each later one at least one. */
  function MostPasses(n: nat, limit: nat): nat {
    if n == 0 then 0 else if n > SendsBefore(limit) then 1 else SendsBefore(limit) + 2 - n
  }

  function Max(a: nat, b: nat): nat {
    if a < b then b else a
  }

  /** Either nothing is confirmed and as many full passes run as can begin, or records are
      confirmed just so fast that the last pass begins at the last possible moment. */
  function MostSends(n: nat, limit: nat): nat {
    var before := SendsBefore(limit);
    if n == 0 then 0
    else if n > before then n
    else
      var full := Quotient(before, n);
      Max(Times(full + 1, n), before + Quotient(before - n, full))
  }

  /** The maximum covers both ways of reaching it. */
  lemma {:induction false} MostSendsCovers(n: nat, limit: nat, open: nat) returns (full: nat)
    requires 0 < n <= SendsBefore(limit)
    ensures full > 0 && Times(full + 1, n) <= MostSends(n, limit)
    ensures n + Times(full, open) <= SendsBefore(limit) ==> SendsBefore(limit) + open <= MostSends(n, limit)
  {
    full := Quotient(SendsBefore(limit), n);
    QuotientBound(SendsBefore(limit) - n, full, open);
    TimesCommutes(open, full);
  }

  /** A pass that begins after `passes` others, with `open` records unconfirmed, cannot
      take the total beyond the maximum. */
  lemma {:induction false} PassStartFits(n: nat, limit: nat, open: nat, passes: nat, sent: nat)
    requires 0 < open <= n && passes > 0 && sent <= SendsBefore(limit)
    requires n + Times(passes - 1, open) <= sent <= Times(passes, n)
    ensures sent + open <= MostSends(n, limit)
    ensures passes + 1 <= MostPasses(n, limit)
  {
    TimesAtLeast(passes - 1, open);
    var full := MostSendsCovers(n, limit, open);
    if passes <= full {
      TimesMonotone(passes, full, n, n);
    } else {
      TimesMonotone(full, passes - 1, open, open);
    }
  }

  lemma {:induction false} OnePassFits(n: nat, limit: nat)
    ensures n <= MostSends(n, limit)
    ensures n > 0 ==> MostPasses(n, limit) >= 1
  {
    if 0 < n <= SendsBefore(limit) {
      TimesMonotone(0, Quotient(SendsBefore(limit), n), n, n);
    }
  }

  // ---------- counting unconfirmed records ----------

  /** How many records from index `from` on are unconfirmed. */
  function Open(records: seq<Record>, from: nat): nat
    decreases |records| - from
  {
    if from >= |records| then 0
    else (if records[from].inSystem then 0 else 1) + Open(records, from + 1)
  }

  lemma {:induction false} OpenBound(records: seq<Record>, from: nat)
    requires from <= |records|
    ensures Open(records, from) <= |records| - from
    decreases |records| - from
  {
    if from < |records| {
      OpenBound(records, from + 1);
    }
  }

  lemma {:induction false} OpenShrinks(records: seq<Record>, a: nat, b: nat)
    requires a <= b <= |records|
    ensures Open(records, b) <= Open(records, a)
    decreases b - a
  {
    if a < b {
      OpenShrinks(records, a + 1, b);
    }
  }

  /** One unconfirmed record makes the count positive. */
  lemma {:induction false} OpenPositive(records: seq<Record>, j: nat)
    requires j < |records| && !records[j].inSystem
    ensures Open(records, 0) > 0
  {
    OpenShrinks(records, 0, j);
  }

  lemma {:induction false} OpenUpdate(records: seq<Record>, i: nat, rec: Record, from: nat)
    requires i < |records| && from <= |records|
    requires records[i].inSystem ==> rec.inSystem
    ensures from > i || records[i].inSystem == rec.inSystem ==>
              Open(records[i := rec], from) == Open(records, from)
    ensures from <= i && records[i].inSystem != rec.inSystem ==>
              Open(records[i := rec], from) == Open(records, from) - 1
    decreases |records| - from
  {
    if from < |records| {
      OpenUpdate(records, i, rec, from + 1);
    }
  }

  /** Fresh records are all unconfirmed. */
  lemma {:induction false} OpenOfFresh(records: seq<Record>, from: nat)
    requires from <= |records| && forall j | 0 <= j < |records| :: !records[j].inSystem
    ensures Open(records, from) == |records| - from
    decreases |records| - from
  {
    if from < |records| {
      OpenOfFresh(records, from + 1);
    }
  }

  // ---------- the bounds hold ----------

  /** How many records the current pass has dealt with, the one being confirmed included. */
  function Visited(p: Place): nat {
    match p
    case Submitting(i) => i
    case Transmitting(i) => i
    case Confirming(i) => i + 1
    case _ => 0
  }

  /** Between passes: the first sent everything, each later one at least what is still
      unconfirmed, and none more than everything. */
  ghost predicate TightBetween(s: State, n: nat) {
    if s.passes == 0 then s.tpuLog == [] && Open(s.records, 0) == n
    else n + Times(s.passes - 1, Open(s.records, 0)) <= |s.tpuLog| <= Times(s.passes, n)
  }

  /** Within a pass: the same, counting only the records visited so far; and what is sent
      plus what this pass can still send stays within the maximum. */
  ghost predicate TightWithin(s: State, n: nat, limit: nat) {
    var at := Visited(s.place);
    && at <= n && s.passes > 0
    && |s.tpuLog| + Open(s.records, at) <= MostSends(n, limit)
    && |s.tpuLog| <= Times(s.passes - 1, n) + at
    && (if s.passes == 1 then |s.tpuLog| + Open(s.records, at) >= n
        else |s.tpuLog| + Open(s.records, at) >= n + Times(s.passes - 2, Open(s.records, 0)) + Open(s.records, 0))
  }

  ghost predicate Tight(s: State, n: nat, limit: nat) {
    && Reachable(s, n, limit)
    && s.passes <= MostPasses(n, limit)
    && |s.tpuLog| <= MostSends(n, limit)
    && (s.place.Head? ==> TightBetween(s, n))
    && (!s.place.Head? && !s.place.Returned? ==> TightWithin(s, n, limit))
  }

  lemma {:induction false} InitiallyTight(s: State, n: nat, limit: nat)
    requires Initial(s, n)
    ensures Tight(s, n, limit)
  {
    InitiallyReachable(s, n, limit);
    OpenOfFresh(s.records, 0);
  }

  /** A pass begins within the maximum. */
  lemma {:induction false} PassBegins(s: State, s': State, n: nat, limit: nat)
    requires TightBetween(s, n) && |s.records| == n && |s.tpuLog| <= SendsBefore(limit)
    requires Open(s.records, 0) > 0
    requires s'.place == Submitting(0) && s'.passes == s.passes + 1
    requires s'.records == s.records && s'.tpuLog == s.tpuLog
    ensures TightWithin(s', n, limit) && s'.passes <= MostPasses(n, limit)
  {
    OpenBound(s.records, 0);
    OnePassFits(n, limit);
    if s.passes > 0 {
      PassStartFits(n, limit, Open(s.records, 0), s.passes, |s.tpuLog|);
    }
  }

  lemma {:induction false} HeadKeepsTight(s: State, s': State, n: nat, limit: nat)
    requires Tight(s, n, limit) && Step(limit, s, s') && s.place.Head?
    ensures Tight(s', n, limit)
  {
    StepKeepsReachable(s, s', n, limit);
    if s'.place.Submitting? {
      assert PAUSE * |s.tpuLog| < 1000 * (limit + 1);
      CountBound(s.records);
      var j :| 0 <= j < n && !s.records[j].inSystem;
      OpenPositive(s.records, j);
      PassBegins(s, s', n, limit);
    }
  }

  lemma {:induction false} PassIsOver(s: State, s': State, n: nat, limit: nat)
    requires TightWithin(s, n, limit) && s.place == Submitting(n) && |s.records| == n
    requires s'.passes == s.passes && s'.records == s.records && s'.tpuLog == s.tpuLog
    ensures TightBetween(s', n) && |s'.tpuLog| <= MostSends(n, limit)
  {
  }

  /** A signature changes nothing about what is confirmed. */
  lemma {:induction false} SubmissionKeepsWithin(s: State, s': State, n: nat, limit: nat, i: nat)
    requires TightWithin(s, n, limit) && s.place == Submitting(i) && i < |s.records| == n
    requires s'.place == Transmitting(i) && s'.passes == s.passes && s'.tpuLog == s.tpuLog && |s'.records| == n
    requires s'.records == s.records || s'.records == s.records[i := s.records[i].(sig := s'.records[i].sig)]
    ensures TightWithin(s', n, limit)
  {
    if s'.records != s.records {
      OpenUpdate(s.records, i, s'.records[i], 0);
      OpenUpdate(s.records, i, s'.records[i], i);
    }
  }

  lemma {:induction false} SubmittingKeepsTight(s: State, s': State, n: nat, limit: nat)
    requires Tight(s, n, limit) && Step(limit, s, s') && s.place.Submitting?
    ensures Tight(s', n, limit)
  {
    StepKeepsReachable(s, s', n, limit);
    if s.place.at == n {
      PassIsOver(s, s', n, limit);
    } else if !s'.place.Returned? {
      SubmissionKeepsWithin(s, s', n, limit, s.place.at);
    }
  }

  /** A confirmed record is passed by; an unconfirmed one was still to be sent. */
  lemma {:induction false} VisitKeepsWithin(s: State, s': State, n: nat, limit: nat, i: nat)
    requires TightWithin(s, n, limit) && s.place == Transmitting(i) && i < |s.records| == n
    requires s'.passes == s.passes && s'.records == s.records
    requires if s.records[i].inSystem then s'.place == Submitting(i + 1) && s'.tpuLog == s.tpuLog
             else s'.place == Confirming(i) && |s'.tpuLog| == |s.tpuLog| + 1
    ensures TightWithin(s', n, limit) && |s'.tpuLog| <= MostSends(n, limit)
  {
    assert Open(s.records, i) == (if s.records[i].inSystem then 0 else 1) + Open(s.records, i + 1);
  }

  lemma {:induction false} TransmittingKeepsTight(s: State, s': State, n: nat, limit: nat)
    requires Tight(s, n, limit) && Step(limit, s, s') && s.place.Transmitting?
    ensures Tight(s', n, limit)
  {
    StepKeepsReachable(s, s', n, limit);
    var i := s.place.at;
    VisitKeepsWithin(s, if s'.place.Returned? then s'.(place := Confirming(i)) else s', n, limit, i);
  }

  /** Confirming a record only lowers what later passes must send. */
  lemma {:induction false} LookupKeepsWithin(s: State, s': State, n: nat, limit: nat, i: nat)
    requires TightWithin(s, n, limit) && s.place == Confirming(i) && i < |s.records| && !s.records[i].inSystem
    requires s'.place == Submitting(i + 1) && s'.passes == s.passes && s'.tpuLog == s.tpuLog
    requires s'.records == s.records || s'.records == s.records[i := s.records[i].(inSystem := true)]
    ensures TightWithin(s', n, limit)
  {
    if s'.records != s.records {
      OpenUpdate(s.records, i, s'.records[i], 0);
      OpenUpdate(s.records, i, s'.records[i], i + 1);
      if s.passes > 1 {
        TimesMonotone(s.passes - 2, s.passes - 2, Open(s'.records, 0), Open(s.records, 0));
      }
    }
  }

  lemma {:induction false} ConfirmingKeepsTight(s: State, s': State, n: nat, limit: nat)
    requires Tight(s, n, limit) && Step(limit, s, s') && s.place.Confirming?
    ensures Tight(s', n, limit)
  {
    StepKeepsReachable(s, s', n, limit);
    if !s'.place.Returned? {
      LookupKeepsWithin(s, s', n, limit, s.place.at);
    }
  }

  lemma {:induction false} RunIsTight(run: seq<State>, n: nat, limit: nat, k: nat)
    requires IsRun(run, n, limit) && k < |run|
    ensures Tight(run[k], n, limit)
  {
    if k == 0 {
      InitiallyTight(run[0], n, limit);
    } else {
      RunIsTight(run, n, limit, k - 1);
      assert StepAt(run, limit, k - 1);
      var s, s' := run[k - 1], run[k];
      match s.place
      case Head => HeadKeepsTight(s, s', n, limit);
      case Submitting(_) => SubmittingKeepsTight(s, s', n, limit);
      case Transmitting(_) => TransmittingKeepsTight(s, s', n, limit);
      case Confirming(_) => ConfirmingKeepsTight(s, s', n, limit);
    }
  }

  /** No environment makes the sender work more than this. */
  lemma {:induction false} WorkIsAtMost(run: seq<State>, n: nat, limit: nat, k: nat)
    requires IsRun(run, n, limit) && k < |run|
    ensures run[k].passes <= MostPasses(n, limit)
    ensures |run[k].tpuLog| <= MostSends(n, limit)
  {
    RunIsTight(run, n, limit, k);
  }

  // ---------- the bounds are attained ----------

  ghost predicate Confirmed(records: seq<Record>, m: nat) {
    forall j | 0 <= j < |records| :: records[j].inSystem <==> j < m
  }

  /** A run that spends no time but the pauses and whose last state is at `place`, with
      exactly the first m records confirmed. */
  ghost predicate Brisk(run: seq<State>, n: nat, limit: nat, place: Place, m: nat) {
    && IsRun(run, n, limit)
    && var s := run[|run| - 1];
       && s.place == place && |s.records| == n
       && s.clock == PAUSE * |s.tpuLog|
       && Confirmed(s.records, m)
  }

  /** Submits the record if need be. */
  lemma {:induction false} SubmitBriskly(run: seq<State>, n: nat, limit: nat, i: nat, m: nat)
    returns (run': seq<State>)
    requires Brisk(run, n, limit, Submitting(i), m) && i < n
    ensures Brisk(run', n, limit, Transmitting(i), m)
    ensures run'[|run'| - 1].records[i].sig.Some?
    ensures run'[|run'| - 1].passes == run[|run| - 1].passes && run'[|run'| - 1].tpuLog == run[|run| - 1].tpuLog
  {
    var s := run[|run| - 1];
    var sig: Signature := seq(64, _ => 0);
    var s' := if s.records[i].sig.Some? then s.(place := Transmitting(i))
              else s.(place := Transmitting(i), rpcLog := s.rpcLog + [i],
                      records := s.records[i := s.records[i].(sig := Some(sig))]);
    ExtendRun(run, n, limit, s');
    run' := run + [s'];
  }

  /** Visits record i; a confirmed one is passed by, an unconfirmed one is transmitted
      and, if it is the next in line and `confirm` is set, confirmed. */
  lemma {:induction false} VisitBriskly(run: seq<State>, n: nat, limit: nat, i: nat, m: nat, confirm: bool)
    returns (run': seq<State>)
    requires Brisk(run, n, limit, Submitting(i), m) && i < n && m <= n
    requires confirm ==> i == m
    ensures Brisk(run', n, limit, Submitting(i + 1), if confirm then m + 1 else m)
    ensures run'[|run'| - 1].passes == run[|run| - 1].passes
    ensures |run'[|run'| - 1].tpuLog| == |run[|run| - 1].tpuLog| + if i < m then 0 else 1
  {
    run' := SubmitBriskly(run, n, limit, i, m);
    var s := run'[|run'| - 1];
    if i < m {
      var s' := s.(place := Submitting(i + 1));
      ExtendRun(run', n, limit, s');
      run' := run' + [s'];
    } else {
      var s1 := s.(clock := s.clock + PAUSE, place := Confirming(i), tpuLog := s.tpuLog + [i]);
      ExtendRun(run', n, limit, s1);
      var s2 := if confirm then
                  s1.(place := Submitting(i + 1), confirmed := s.confirmed + 1,
                      records := s.records[i := s.records[i].(inSystem := true)])
                else s1.(place := Submitting(i + 1));
      ExtendRun(run' + [s1], n, limit, s2);
      run' := run' + [s1] + [s2];
    }
  }

  function Between(low: nat, i: nat, high: nat): nat {
    if i < low then low else if i > high then high else i
  }

  /** The rest of a pass that begins with a records confirmed and ends with b. */
  lemma {:induction false} RestOfPass(run: seq<State>, n: nat, limit: nat, i: nat, a: nat, b: nat)
    returns (run': seq<State>)
    requires i <= n && a <= b < n && Brisk(run, n, limit, Submitting(i), Between(a, i, b))
    ensures Brisk(run', n, limit, Head, b)
    ensures run'[|run'| - 1].passes == run[|run| - 1].passes
    ensures |run'[|run'| - 1].tpuLog| == |run[|run| - 1].tpuLog| + n - (if i < a then a else i)
    decreases n - i
  {
    if i == n {
      var s' := run[|run| - 1].(place := Head);
      ExtendRun(run, n, limit, s');
      run' := run + [s'];
    } else {
      run' := VisitBriskly(run, n, limit, i, Between(a, i, b), a <= i < b);
      run' := RestOfPass(run', n, limit, i + 1, a, b);
    }
  }

  /** One pass, begun in time, that transmits the n - a unconfirmed records and confirms
      those below b. */
  lemma {:induction false} OnePass(run: seq<State>, n: nat, limit: nat, a: nat, b: nat) returns (run': seq<State>)
    requires a <= b < n && Brisk(run, n, limit, Head, a)
    requires |run[|run| - 1].tpuLog| <= SendsBefore(limit)
    ensures Brisk(run', n, limit, Head, b)
    ensures run'[|run'| - 1].passes == run[|run| - 1].passes + 1
    ensures |run'[|run'| - 1].tpuLog| == |run[|run| - 1].tpuLog| + n - a
  {
    var s := run[|run| - 1];
    RunReachable(run, n, limit, |run| - 1);
    CountBound(s.records);
    assert !s.records[n - 1].inSystem;
    var s' := s.(place := Submitting(0), passes := s.passes + 1);
    ExtendRun(run, n, limit, s');
    run' := RestOfPass(run + [s'], n, limit, 0, a, b);
  }

  /** Passes that confirm nothing. */
  lemma {:induction false} IdlePasses(run: seq<State>, n: nat, limit: nat, a: nat, passes: nat)
    returns (run': seq<State>)
    requires a < n && Brisk(run, n, limit, Head, a)
    requires passes > 0 ==> |run[|run| - 1].tpuLog| + Times(passes - 1, n - a) <= SendsBefore(limit)
    ensures Brisk(run', n, limit, Head, a)
    ensures run'[|run'| - 1].passes == run[|run| - 1].passes + passes
    ensures |run'[|run'| - 1].tpuLog| == |run[|run| - 1].tpuLog| + Times(passes, n - a)
  {
    if passes == 0 {
      run' := run;
    } else {
      run' := IdlePasses(run, n, limit, a, passes - 1);
      run' := OnePass(run', n, limit, a, a);
    }
  }

  lemma {:induction false} NewRun(n: nat, limit: nat) returns (run: seq<State>)
    ensures Brisk(run, n, limit, Head, 0)
    ensures run[|run| - 1].passes == 0 && run[|run| - 1].tpuLog == []
  {
    run := [State(seq(n, _ => Record(None, false)), 0, 0, Head, 0, [], [])];
  }

  /** For every list there is a network on which the sender makes the most passes: it
      confirms all records but one in the first. */
  lemma {:induction false} MostPassesAttained(n: nat, limit: nat) returns (run: seq<State>)
    ensures IsRun(run, n, limit) && run[|run| - 1].passes == MostPasses(n, limit)
  {
    run := NewRun(n, limit);
    if n > 0 {
      run := OnePass(run, n, limit, 0, n - 1);
      if n <= SendsBefore(limit) {
        var later: nat := MostPasses(n, limit) - 1;
        TimesIsProduct(later - 1, 1);
        run := IdlePasses(run, n, limit, n - 1, later);
      }
    }
  }

  lemma {:induction false} TimesSplit(extra: nat, rest: nat, n: nat)
    ensures Times(extra, n + 1) + Times(rest, n) == Times(extra + rest, n) + extra
  {
    if extra > 0 {
      TimesSplit(extra - 1, rest, n);
    }
  }

  /** The first pass and `extra` more, which transmit open + 1 records each. */
  lemma {:induction false} ExtraPasses(start: seq<State>, n: nat, limit: nat, open: nat, extra: nat)
    returns (run: seq<State>)
    requires Brisk(start, n, limit, Head, 0) && start[|start| - 1].tpuLog == []
    requires 0 < open < n && n + Times(extra, open + 1) <= SendsBefore(limit)
    ensures Brisk(run, n, limit, Head, n - open)
    ensures |run[|run| - 1].tpuLog| == n + Times(extra, open + 1)
  {
    if extra == 0 {
      run := OnePass(start, n, limit, 0, n - open);
    } else {
      run := OnePass(start, n, limit, 0, n - (open + 1));
      run := IdlePasses(run, n, limit, n - (open + 1), extra - 1);
      run := OnePass(run, n, limit, n - (open + 1), n - open);
    }
  }

  /** After the first pass there is time for `full` passes more: `extra` of them transmit
      open + 1 records and the others `open`. The last pass then begins at the last
      possible moment. */
  lemma {:induction false} SlowConfirmation(start: seq<State>, n: nat, limit: nat, full: nat, open: nat, extra: nat)
    returns (run: seq<State>)
    requires Brisk(start, n, limit, Head, 0) && start[|start| - 1].tpuLog == []
    requires 0 < open < n && extra < full
    requires n + Times(full, open) + extra == SendsBefore(limit)
    ensures IsRun(run, n, limit) && |run[|run| - 1].tpuLog| == SendsBefore(limit) + open
  {
    TimesSplit(extra, full - extra, open);
    run := ExtraPasses(start, n, limit, open, extra);
    run := IdlePasses(run, n, limit, n - open, full - extra + 1);
  }

  /** The numbers for either way of reaching the maximum. */
  lemma {:induction false} Plan(n: nat, limit: nat) returns (full: nat, open: nat, extra: nat)
    requires 0 < n <= SendsBefore(limit)
    ensures full == Quotient(SendsBefore(limit), n) && Times(full, n) <= SendsBefore(limit)
    ensures MostSends(n, limit) >= Times(full + 1, n)
    ensures MostSends(n, limit) != Times(full + 1, n) ==>
              && 0 < open < n && extra < full
              && n + Times(full, open) + extra == SendsBefore(limit)
              && MostSends(n, limit) == SendsBefore(limit) + open
  {
    var before := SendsBefore(limit);
    full := Quotient(before, n);
    QuotientBound(before, n, full);
    QuotientBound(before, n, full + 1);
    open := Quotient(before - n, full);
    QuotientBound(before - n, full, open);
    QuotientBound(before - n, full, open + 1);
    TimesCommutes(open, full);
    extra := before - n - Times(full, open);
    if open >= n {
      TimesMonotone(full, full, n, open);
    }
  }

  /** ... and one on which it makes the most transmissions. */
  lemma {:induction false} MostSendsAttained(n: nat, limit: nat) returns (run: seq<State>)
    ensures IsRun(run, n, limit) && |run[|run| - 1].tpuLog| == MostSends(n, limit)
  {
    run := NewRun(n, limit);
    if n > SendsBefore(limit) {
      run := OnePass(run, n, limit, 0, 0);
    } else if n > 0 {
      var full, open, extra := Plan(n, limit);
      if MostSends(n, limit) == Times(full + 1, n) {
        run := IdlePasses(run, n, limit, 0, full + 1);
      } else {
        run := SlowConfirmation(run, n, limit, full, open, extra);
      }
    }
  }

  /** The simple bounds of WorkIsBounded are reached by one-transaction lists only, and by
      the lists whose length divides what fits before the last pass. */
  lemma {:induction false} SimpleBoundsReachedIff(n: nat, limit: nat)
    ensures (exists run: seq<State> | IsRun(run, n, limit) :: run[|run| - 1].passes == 100 * (limit + 1))
       <==> n == 1
    ensures (exists run: seq<State> | IsRun(run, n, limit) :: |run[|run| - 1].tpuLog| == 100 * (limit + 1) - 1 + n)
       <==> n > 0 && (100 * (limit + 1) - 1) % n == 0
  {
    forall run: seq<State> | IsRun(run, n, limit)
      ensures run[|run| - 1].passes <= MostPasses(n, limit) && |run[|run| - 1].tpuLog| <= MostSends(n, limit)
    {
      WorkIsAtMost(run, n, limit, |run| - 1);
    }
    var longest := MostPassesAttained(n, limit);
    var fullest := MostSendsAttained(n, limit);
    MostSendsIsSimpleIff(n, limit);
  }

  lemma {:induction false} MostSendsIsSimpleIff(n: nat, limit: nat)
    ensures MostSends(n, limit) <= SendsBefore(limit) + n
    ensures MostSends(n, limit) == SendsBefore(limit) + n <==> n > 0 && SendsBefore(limit) % n == 0
  {
    if n > 0 {
      QuotientIsDivision(SendsBefore(limit), n);
      if n <= SendsBefore(limit) {
        var full, open, extra := Plan(n, limit);
      }
    }
  }
}
