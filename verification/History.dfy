/** Whole histories of the engine: lock-serialised runs that load, decide and write one row at a time, may die
    between any two writes, and interleave with ingestion and exception resolution. */
module History {
  import opened Sequences
  import opened Recon
  import opened Tables
  import opened Engine

  /** The one run that may be active. `lines` are the candidates loaded for a payment method, `owed` holds the writes of
      the current decision still to be made. */
  datatype Run = Idle
               | Settle(start: int, end: int, queue: seq<PaymentRow>, loadedFor: Option<string>,
                        lines: seq<SettlementLine>, owed: seq<Write>)
               | Book(start: int, end: int, ledgers: seq<LedgerRow>, payments: seq<PaymentRow>, owed: seq<Write>)

  datatype World = World(store: Store, run: Run)

  datatype Step = Begin(start: int, end: int, queue: seq<PaymentRow>)
                | LoadLines(lines: seq<SettlementLine>)
                | DecidePayment(rank: Ranker)
                | TurnToLedger(ledgers: seq<LedgerRow>, payments: seq<PaymentRow>)
                | DecideLedger
                | WriteRow
                | Fail
                | Finish
                | IngestPayment(payment: PaymentRow)
                | IngestLine(line: SettlementLine)
                | IngestLedger(ledger: LedgerRow)
                | Resolve(index: nat)

  ghost predicate Enabled(w: World, step: Step)
  {
    var s, run := w.store, w.run;
    match step
    case Begin(start, end, queue) =>
      run.Idle? && multiset(queue) == multiset(Filter(s.payments, UnmatchedIn(s, start, end)))
    case LoadLines(lines) => run.Settle? && run.owed == [] && run.queue != [] &&
      var m := run.queue[0].paymentMethod;
      multiset(lines) == multiset(Filter(s.lines, CandidateIn(m, run.start, run.end + SlaFor(m))))
    case DecidePayment(_) =>
      run.Settle? && run.owed == [] && run.queue != [] && run.loadedFor == Some(run.queue[0].paymentMethod)
    case TurnToLedger(ledgers, payments) => run.Settle? && run.owed == [] && run.queue == []
      && multiset(ledgers) == multiset(Filter(s.ledgers, UnmatchedLedgerIn(run.start - 2 * LAG, run.end + 2 * LAG)))
      && multiset(payments) == multiset(Filter(s.payments, InWindow(run.start - LAG, run.end + LAG)))
    case DecideLedger => run.Book? && run.owed == [] && run.ledgers != []
    case WriteRow => !run.Idle? && run.owed != []
    case Fail => !run.Idle?
    case Finish => run.Book? && run.owed == [] && run.ledgers == []
    case IngestPayment(payment) => forall i :: 0 <= i < |s.payments| ==> s.payments[i].id != payment.id
    case IngestLine(_) => true
    case IngestLedger(ledger) =>
      ledger.matched.None? && forall i :: 0 <= i < |s.ledgers| ==> s.ledgers[i].id != ledger.id
    case Resolve(index) => index < |s.exceptions|
  }

  ghost function Do(w: World, step: Step): World
    requires Enabled(w, step)
  {
    var s, run := w.store, w.run;
    match step
    case Begin(start, end, queue) => w.(run := Settle(start, end, queue, None, [], []))
    case LoadLines(lines) => w.(run := run.(loadedFor := Some(run.queue[0].paymentMethod), lines := lines))
    case DecidePayment(rank) =>
      w.(run := run.(queue := run.queue[1..], owed := PaymentWrites(Settling(run.queue[0]), run.lines, rank)))
    case TurnToLedger(ledgers, payments) => w.(run := Book(run.start, run.end, ledgers, payments, []))
    case DecideLedger =>
      var owed := LedgerWrites(ToLedgerLine(run.ledgers[0]), Map(run.payments, AsPayment()));
      w.(run := run.(ledgers := run.ledgers[1..], owed := owed))
    case WriteRow => World(Apply(s, run.owed[0]), run.(owed := run.owed[1..]))
    case Fail => w.(run := Idle)
    case Finish => w.(run := Idle)
    case IngestPayment(payment) => w.(store := s.(payments := s.payments + [payment]))
    case IngestLine(line) => w.(store := s.(lines := s.lines + [line]))
    case IngestLedger(ledger) => w.(store := s.(ledgers := s.ledgers + [ledger]))
    case Resolve(index) => w.(store := s.(exceptions := s.exceptions[index := s.exceptions[index].(resolved := true)]))
  }

  // ---------------------------------------------------------------- invariant

  function Owed(run: Run): seq<Write> { if run.Idle? then [] else run.owed }

  function Queue(run: Run): seq<PaymentRow> { if run.Settle? then run.queue else [] }

  /** Outcomes a payment has, is about to get, and is queued for. */
  function Claims(w: World, id: string): nat
  {
    Outcomes(w.store, PaymentRecord(id)) +
    |Filter(Owed(w.run), TouchesFor(PaymentRecord(id)))| +
    |Filter(Queue(w.run), RowOf(id))|
  }

  /** A pending ledger pointer has its match row written or immediately before it. */
  predicate PointerCovered(s: Store, owed: seq<Write>)
  {
    && (owed != [] && owed[0].SetMatched? ==> HasMatch(s, LedgerRecord(owed[0].ledgerId)))
    && forall k :: 0 < k < |owed| && owed[k].SetMatched?
         ==> owed[k - 1].InsertMatch? && owed[k - 1].row.record == LedgerRecord(owed[k].ledgerId)
  }

  ghost predicate Ok(w: World)
  {
    && DistinctKeys(w.store)
    && PointersBacked(w.store)
    && PointerCovered(w.store, Owed(w.run))
    && forall id: string :: Claims(w, id) <= 1
  }

  lemma OkIsConsistent(w: World)
    requires Ok(w)
    ensures Consistent(w.store)
  {
    forall id: string ensures Outcomes(w.store, PaymentRecord(id)) <= 1 { assert Claims(w, id) <= 1; }
  }

  lemma BeginClaims(w: World, start: int, end: int, queue: seq<PaymentRow>, id: string)
    requires Ok(w) && Enabled(w, Begin(start, end, queue))
    ensures Claims(Do(w, Begin(start, end, queue)), id) <= 1
  {
    var s := w.store;
    assert Claims(w, id) <= 1;
    hide Outcomes;
    assert forall i, j :: 0 <= i < j < |s.payments| ==> !(RowOf(id)(s.payments[i]) && RowOf(id)(s.payments[j]));
    SelectedOnce(s.payments, UnmatchedIn(s, start, end), queue, RowOf(id));
  }

  lemma DecideClaims(w: World, rank: Ranker, id: string)
    requires Enabled(w, DecidePayment(rank))
    ensures Claims(Do(w, DecidePayment(rank)), id) == Claims(w, id)
  {
    var run := w.run;
    hide PaymentWrites;
    hide Outcomes;
    hide Filter;
    hide TouchesFor;
    PaymentStepTouches(Settling(run.queue[0]), run.lines, rank, PaymentRecord(id));
    assert run.queue == [run.queue[0]] + run.queue[1..];
    FilterAppend([run.queue[0]], run.queue[1..], RowOf(id));
    FilterOne(run.queue[0], RowOf(id));
  }

  lemma WriteClaims(w: World, id: string)
    requires Enabled(w, WriteRow)
    ensures Claims(Do(w, WriteRow), id) == Claims(w, id)
  {
    var owed := w.run.owed;
    hide Outcomes;
    hide Filter;
    hide Apply;
    hide Touches;
    OutcomesAfterOne(w.store, owed[0], PaymentRecord(id));
    FirstTouch(owed, PaymentRecord(id));
  }

  lemma FirstTouch(owed: seq<Write>, record: Record)
    requires owed != []
    ensures |Filter(owed, TouchesFor(record))| ==
      (if Touches(owed[0], record) then 1 else 0) + |Filter(owed[1..], TouchesFor(record))|
  {
    hide Touches;
    assert owed == [owed[0]] + owed[1..];
    FilterAppend([owed[0]], owed[1..], TouchesFor(record));
    FilterOne(owed[0], TouchesFor(record));
  }

  lemma ResolveClaims(w: World, index: nat, id: string)
    requires Enabled(w, Resolve(index))
    ensures Claims(Do(w, Resolve(index)), id) <= Claims(w, id)
  {
    var rows := w.store.exceptions;
    FilterReplaced(rows, index, rows[index].(resolved := true), OpenExceptionOf(PaymentRecord(id)));
    hide Filter;
  }

  lemma WriteKeepsPointers(w: World)
    requires Ok(w) && Enabled(w, WriteRow)
    ensures var v := Do(w, WriteRow);
      DistinctKeys(v.store) && PointersBacked(v.store) && PointerCovered(v.store, Owed(v.run))
  {
    var owed := w.run.owed;
    var t := Apply(w.store, owed[0]);
    assert ApplyAll(w.store, [owed[0]]) == t by { assert [owed[0]][..0] == []; }
    KeysAfter(w.store, [owed[0]]);
    PointersAfterOne(w.store, owed[0]);
    if |owed| > 1 && owed[1].SetMatched? {
      assert t.matches[|w.store.matches|].record == LedgerRecord(owed[1].ledgerId);
    }
  }

  lemma IngestLedgerKeepsPointers(s: Store, ledger: LedgerRow)
    requires PointersBacked(s) && ledger.matched.None?
    ensures PointersBacked(s.(ledgers := s.ledgers + [ledger]))
  {
    var t := s.(ledgers := s.ledgers + [ledger]);
    forall i | 0 <= i < |t.ledgers| && t.ledgers[i].matched.Some? ensures HasMatch(t, LedgerRecord(t.ledgers[i].id)) {
      assert t.ledgers[i] == s.ledgers[i];
      assert HasMatch(s, LedgerRecord(s.ledgers[i].id));
    }
  }

  lemma NoTouches(record: Record)
    ensures Filter<Write>([], TouchesFor(record)) == []
  {
  }

  lemma LedgerDecisionTouchesNoPayment(w: World, id: string)
    requires Enabled(w, DecideLedger)
    ensures Claims(Do(w, DecideLedger), id) == Claims(w, id)
  {
    hide LedgerWrites;
    hide Outcomes;
    hide Filter;
    assert Filter<Write>([], TouchesFor(PaymentRecord(id))) == [] by { NoTouches(PaymentRecord(id)); }
    LedgerStepTouches(ToLedgerLine(w.run.ledgers[0]), Map(w.run.payments, AsPayment()), PaymentRecord(id));
  }

  /** Every step of every history keeps the invariant. */
  lemma StepKeepsOk(w: World, step: Step)
    requires Ok(w) && Enabled(w, step)
    ensures Ok(Do(w, step))
  {
    var v := Do(w, step);
    forall id: string ensures Claims(v, id) <= 1 {
      assert Claims(w, id) <= 1;
      ClaimsAfter(w, step, id);
    }
    StepKeepsKeys(w, step);
    PointersAfterStep(w, step);
    hide *;
    OkFrom(v);
  }

  lemma OkFrom(v: World)
    requires DistinctKeys(v.store) && PointersBacked(v.store) && PointerCovered(v.store, Owed(v.run))
    requires forall id: string :: Claims(v, id) <= 1
    ensures Ok(v)
  {
  }

  lemma StepKeepsKeys(w: World, step: Step)
    requires Ok(w) && Enabled(w, step)
    ensures DistinctKeys(Do(w, step).store)
  {
    if step.WriteRow? { WriteKeepsPointers(w); }
    hide Claims;
    hide PaymentWrites;
    hide LedgerWrites;
    hide PointersBacked;
    hide PointerCovered;
  }

  lemma BackedIsCovered(s: Store, ws: seq<Write>)
    requires Backed(ws)
    ensures PointerCovered(s, ws)
  {
  }

  lemma LedgerWritesBacked(l: LedgerLine, payments: seq<Payment>)
    ensures Backed(LedgerWrites(l, payments))
  {
  }

  lemma PointersAfterStep(w: World, step: Step)
    requires Ok(w) && Enabled(w, step)
    ensures PointersBacked(Do(w, step).store) && PointerCovered(Do(w, step).store, Owed(Do(w, step).run))
  {
    var v := Do(w, step);
    hide Claims;
    hide PaymentWrites;
    hide LedgerWrites;
    match step
    case DecidePayment(rank) =>
      PaymentWritesBacked(Settling(w.run.queue[0]), w.run.lines, rank);
      BackedIsCovered(w.store, v.run.owed);
    case DecideLedger =>
      LedgerWritesBacked(ToLedgerLine(w.run.ledgers[0]), Map(w.run.payments, AsPayment()));
      BackedIsCovered(w.store, v.run.owed);
    case WriteRow => WriteKeepsPointers(w);
    case IngestLedger(ledger) => IngestLedgerKeepsPointers(w.store, ledger);
    case Resolve(_) => assert PointersBacked(v.store) by { SameMatches(w.store, v.store); }
    case IngestPayment(_) => assert PointersBacked(v.store) by { SameMatches(w.store, v.store); }
    case IngestLine(_) => assert PointersBacked(v.store) by { SameMatches(w.store, v.store); }
    case _ =>
  }

  lemma SameMatches(s: Store, t: Store)
    requires PointersBacked(s) && t.ledgers == s.ledgers && t.matches == s.matches
    ensures PointersBacked(t)
  {
    forall i | 0 <= i < |t.ledgers| && t.ledgers[i].matched.Some? ensures HasMatch(t, LedgerRecord(t.ledgers[i].id)) {
      assert HasMatch(s, LedgerRecord(s.ledgers[i].id));
    }
  }

  lemma ClaimsAfter(w: World, step: Step, id: string)
    requires Ok(w) && Enabled(w, step)
    ensures Claims(Do(w, step), id) <= 1
  {
    assert Claims(w, id) <= 1;
    match step
    case Begin(start, end, queue) => BeginClaims(w, start, end, queue, id);
    case DecidePayment(rank) => DecideClaims(w, rank, id);
    case DecideLedger => LedgerDecisionTouchesNoPayment(w, id);
    case WriteRow => WriteClaims(w, id);
    case Resolve(index) => ResolveClaims(w, index, id);
    case _ =>
  }

  /** `worlds` is a history driven by `steps`. */
  ghost predicate Behaves(worlds: seq<World>, steps: seq<Step>)
  {
    && |worlds| == |steps| + 1
    && forall i :: 0 <= i < |steps| ==> Enabled(worlds[i], steps[i]) && worlds[i + 1] == Do(worlds[i], steps[i])
  }

  /** At every point of every history every payment has at most one of {match row, open exception}, and every ledger
      pointer is backed by a match row. */
  lemma {:induction false} HistoryIsConsistent(worlds: seq<World>, steps: seq<Step>, n: nat)
    requires Behaves(worlds, steps) && worlds[0].run.Idle? && Consistent(worlds[0].store) && n < |worlds|
    ensures Ok(worlds[n]) && Consistent(worlds[n].store)
  {
    if n > 0 {
      HistoryIsConsistent(worlds, steps, n - 1);
      assert worlds[n] == Do(worlds[n - 1], steps[n - 1]);
      StepKeepsOk(worlds[n - 1], steps[n - 1]);
    }
    OkIsConsistent(worlds[n]);
  }

  // ---------------------------------------------------------------- a whole run in a history

  /** Loading gives every payment captured in the window exactly one claim. */
  lemma BeginClaimsOne(w: World, start: int, end: int, queue: seq<PaymentRow>, r: PaymentRow)
    requires Ok(w) && Enabled(w, Begin(start, end, queue)) && r in w.store.payments
    requires r.capturedAt.Some? && start <= r.capturedAt.value < end
    ensures Claims(Do(w, Begin(start, end, queue)), r.id) == 1
  {
    var s := w.store;
    assert Claims(w, r.id) <= 1;
    assert UnmatchedIn(s, start, end)(r) <==> Outcomes(s, PaymentRecord(r.id)) == 0;
    hide Outcomes;
    assert forall i, j :: 0 <= i < j < |s.payments| ==> !(RowOf(r.id)(s.payments[i]) && RowOf(r.id)(s.payments[j]));
    SelectedOnce(s.payments, UnmatchedIn(s, start, end), queue, RowOf(r.id));
    NoTouches(PaymentRecord(r.id));
  }

  /** The step does not close an open exception of the record. */
  predicate Spares(w: World, step: Step, record: Record)
  {
    step.Resolve? && step.index < |w.store.exceptions| ==> !OpenExceptionOf(record)(w.store.exceptions[step.index])
  }

  /** A step that neither starts nor ends a run nor closes an exception of the record. */
  predicate Inner(w: World, step: Step, record: Record)
  {
    !step.Begin? && !step.Fail? && !step.Finish? && Spares(w, step, record)
  }

  lemma SparingResolve(w: World, index: nat, record: Record)
    requires index < |w.store.exceptions| && Spares(w, Resolve(index), record)
    ensures Outcomes(Do(w, Resolve(index)).store, record) == Outcomes(w.store, record)
  {
    var rows := w.store.exceptions;
    FilterReplaced(rows, index, rows[index].(resolved := true), OpenExceptionOf(record));
    hide Filter;
  }

  lemma SparingResolveClaims(w: World, index: nat, id: string)
    requires index < |w.store.exceptions| && Spares(w, Resolve(index), PaymentRecord(id))
    ensures Claims(Do(w, Resolve(index)), id) == Claims(w, id)
  {
    SparingResolve(w, index, PaymentRecord(id));
    hide Outcomes;
  }

  lemma TurnClaims(w: World, ledgers: seq<LedgerRow>, payments: seq<PaymentRow>, id: string)
    requires Enabled(w, TurnToLedger(ledgers, payments))
    ensures Claims(Do(w, TurnToLedger(ledgers, payments)), id) == Claims(w, id)
  {
    hide Outcomes;
  }

  /** Such a step keeps the payment's number of claims, and the run going. */
  lemma InnerKeepsClaims(w: World, step: Step, id: string)
    requires Enabled(w, step) && Inner(w, step, PaymentRecord(id)) && !w.run.Idle?
    ensures Claims(Do(w, step), id) == Claims(w, id) && !Do(w, step).run.Idle?
  {
    match step
    case DecidePayment(rank) => DecideClaims(w, rank, id);
    case DecideLedger => LedgerDecisionTouchesNoPayment(w, id);
    case WriteRow => WriteClaims(w, id);
    case TurnToLedger(ledgers, payments) => TurnClaims(w, ledgers, payments, id);
    case Resolve(index) => SparingResolveClaims(w, index, id);
    case _ =>
  }

  lemma LengthOf(worlds: seq<World>, steps: seq<Step>)
    requires Behaves(worlds, steps)
    ensures |worlds| == |steps| + 1
  {
  }

  lemma StepOf(worlds: seq<World>, steps: seq<Step>, i: nat)
    requires Behaves(worlds, steps) && i < |steps|
    ensures Enabled(worlds[i], steps[i]) && worlds[i + 1] == Do(worlds[i], steps[i])
    ensures steps[i].Begin? ==> !worlds[i + 1].run.Idle?
  {
  }

  lemma {:induction false} ClaimsDuringRun(worlds: seq<World>, steps: seq<Step>, b: nat, i: nat, id: string)
    requires Behaves(worlds, steps) && b < i < |worlds| && steps[b].Begin?
    requires |steps| < |worlds| && forall j :: b < j < i ==> Inner(worlds[j], steps[j], PaymentRecord(id))
    ensures Claims(worlds[i], id) == Claims(worlds[b + 1], id) && !worlds[i].run.Idle?
  {
    hide *;
    LengthOf(worlds, steps);
    StepOf(worlds, steps, i - 1);
    if i > b + 1 {
      var w, step := worlds[i - 1], steps[i - 1];
      assert Inner(w, step, PaymentRecord(id));
      ClaimsDuringRun(worlds, steps, b, i - 1, id);
      InnerKeepsClaims(w, step, id);
    }
  }

  /** Finishing leaves no claim but the outcomes. */
  lemma FinishClaims(w: World, id: string)
    requires Enabled(w, Finish)
    ensures Outcomes(Do(w, Finish).store, PaymentRecord(id)) == Claims(w, id)
  {
    hide Outcomes;
    NoTouches(PaymentRecord(id));
  }

  /** A run that begins at step `b` and finishes at step `n`, one write at a time and with any ingestion and any other
      resolution in between, leaves every payment that was captured in its window when it began with exactly one
      outcome. */
  lemma FinishedRunDecides(worlds: seq<World>, steps: seq<Step>, b: nat, n: nat, r: PaymentRow)
    requires Behaves(worlds, steps) && worlds[0].run.Idle? && Consistent(worlds[0].store)
    requires b < n < |steps| && steps[b].Begin? && steps[n].Finish?
    requires forall j :: b < j < n ==> Inner(worlds[j], steps[j], PaymentRecord(r.id))
    requires r in worlds[b].store.payments && r.capturedAt.Some?
    requires steps[b].start <= r.capturedAt.value < steps[b].end
    ensures Outcomes(worlds[n + 1].store, PaymentRecord(r.id)) == 1
  {
    hide *;
    LengthOf(worlds, steps);
    HistoryIsConsistent(worlds, steps, b);
    StepOf(worlds, steps, b);
    BeginClaimsOne(worlds[b], steps[b].start, steps[b].end, steps[b].queue, r);
    ClaimsDuringRun(worlds, steps, b, n, r.id);
    StepOf(worlds, steps, n);
    FinishClaims(worlds[n], r.id);
  }

  // ---------------------------------------------------------------- what a run decides in a history

  ghost predicate QueueIn(queue: seq<PaymentRow>, start: int, end: int)
  {
    forall i :: 0 <= i < |queue| ==> CapturedIn(queue[i], start, end)
  }

  ghost predicate LinesFresh(table: seq<SettlementLine>, loadedFor: Option<string>, start: int, end: int,
                             lines: seq<SettlementLine>)
  {
    loadedFor.Some? ==>
      var m := loadedFor.value;
      multiset(lines) == multiset(Filter(table, CandidateIn(m, start, end + SlaFor(m))))
  }

  ghost predicate PaymentsFresh(table: seq<PaymentRow>, start: int, end: int, payments: seq<PaymentRow>)
  {
    multiset(payments) == multiset(Filter(table, InWindow(start - LAG, end + LAG)))
  }

  /** What the run has loaded is what the tables hold. */
  ghost predicate Fresh(w: World)
  {
    match w.run
    case Idle => true
    case Settle(start, end, queue, loadedFor, lines, _) =>
      QueueIn(queue, start, end) && LinesFresh(w.store.lines, loadedFor, start, end, lines)
    case Book(start, end, _, payments, _) => PaymentsFresh(w.store.payments, start, end, payments)
  }

  lemma BeginIsFresh(w: World, start: int, end: int, queue: seq<PaymentRow>)
    requires Enabled(w, Begin(start, end, queue))
    ensures QueueIn(queue, start, end)
  {
    FilterMembers(w.store.payments, UnmatchedIn(w.store, start, end));
    forall i | 0 <= i < |queue| ensures CapturedIn(queue[i], start, end) {
      assert queue[i] in multiset(queue);
      assert queue[i] in Filter(w.store.payments, UnmatchedIn(w.store, start, end));
      assert UnmatchedIn(w.store, start, end)(queue[i]);
    }
  }

  lemma TailIn(queue: seq<PaymentRow>, start: int, end: int)
    requires QueueIn(queue, start, end) && queue != []
    ensures QueueIn(queue[1..], start, end) && CapturedIn(queue[0], start, end)
  {
  }

  lemma WriteLeavesSources(s: Store, w: Write)
    ensures Apply(s, w).lines == s.lines && Apply(s, w).payments == s.payments
  {
  }

  lemma LoadsAreFresh(w: World, step: Step)
    requires Enabled(w, step)
    ensures step.LoadLines? ==>
      LinesFresh(w.store.lines, Some(w.run.queue[0].paymentMethod), w.run.start, w.run.end, step.lines)
    ensures step.TurnToLedger? ==> PaymentsFresh(w.store.payments, w.run.start, w.run.end, step.payments)
    ensures step.Begin? ==> LinesFresh(w.store.lines, None, step.start, step.end, [])
  {
    hide Filter;
    hide Outcomes;
  }

  lemma StepKeepsFresh(w: World, step: Step)
    requires Fresh(w) && Enabled(w, step) && !step.IngestLine? && !step.IngestPayment?
    ensures Fresh(Do(w, step))
  {
    if step.Begin? { BeginIsFresh(w, step.start, step.end, step.queue); }
    if step.DecidePayment? { TailIn(w.run.queue, w.run.start, w.run.end); }
    if step.WriteRow? { WriteLeavesSources(w.store, w.run.owed[0]); }
    LoadsAreFresh(w, step);
    hide PaymentWrites;
    hide LedgerWrites;
    hide Filter;
    hide Outcomes;
    hide Apply;
    hide QueueIn;
    hide LinesFresh;
    hide PaymentsFresh;
  }

  lemma {:induction false} FreshAlong(worlds: seq<World>, steps: seq<Step>, i: nat, n: nat)
    requires Behaves(worlds, steps) && i <= n < |worlds| && Fresh(worlds[i])
    requires forall j :: i <= j < n && j < |steps| ==> !steps[j].IngestLine? && !steps[j].IngestPayment?
    ensures Fresh(worlds[n])
  {
    hide *;
    LengthOf(worlds, steps);
    if i < n {
      FreshAlong(worlds, steps, i, n - 1);
      StepOf(worlds, steps, n - 1);
      assert !steps[n - 1].IngestLine? && !steps[n - 1].IngestPayment?;
      StepKeepsFresh(worlds[n - 1], steps[n - 1]);
    }
  }

  /** With nothing ingested since the run was idle, a payment is decided as matching against every line of its method in
      the table says: the match it gives, or an exception if it gives none. */
  lemma DecisionMatchesTable(worlds: seq<World>, steps: seq<Step>, i: nat, n: nat)
    requires Behaves(worlds, steps) && i <= n < |steps| && worlds[i].run.Idle? && steps[n].DecidePayment?
    requires forall j :: i <= j < n ==> !steps[j].IngestLine? && !steps[j].IngestPayment?
    ensures worlds[n].run.Settle? && worlds[n].run.queue != [] && worlds[n + 1].run.Settle?
    ensures var r, owed := worlds[n].run.queue[0], worlds[n + 1].run.owed;
      var whole := DeterministicMatch(Settling(r), AllLines(worlds[n].store, r.paymentMethod));
      if whole.Some? then owed == MatchWrites(whole.value) else |owed| == 2 && owed[0].InsertException?
  {
    FreshAlong(worlds, steps, i, n);
    StepOf(worlds, steps, n);
    hide Behaves;
    DecisionIsFresh(worlds[n], steps[n].rank);
  }

  lemma DecisionIsFresh(w: World, rank: Ranker)
    requires Fresh(w) && Enabled(w, DecidePayment(rank))
    ensures var r, owed := w.run.queue[0], Do(w, DecidePayment(rank)).run.owed;
      var whole := DeterministicMatch(Settling(r), AllLines(w.store, r.paymentMethod));
      if whole.Some? then owed == MatchWrites(whole.value) else |owed| == 2 && owed[0].InsertException?
  {
    var r := w.run.queue[0];
    TailIn(w.run.queue, w.run.start, w.run.end);
    SettlementWindow(w.store, r, w.run.start, w.run.end, w.run.lines);
    hide DeterministicMatch;
    hide ClassifyAfterTier2;
    hide AllLines;
    hide Filter;
  }

  /** And a ledger line booked in [start, end) as matching against every captured payment says, unless some capture is
      late enough to saturate the time difference. */
  lemma LedgerDecisionMatchesTable(worlds: seq<World>, steps: seq<Step>, i: nat, n: nat)
    requires Behaves(worlds, steps) && i <= n < |steps| && worlds[i].run.Idle? && steps[n].DecideLedger?
    requires forall j :: i <= j < n ==> !steps[j].IngestLine? && !steps[j].IngestPayment?
    ensures worlds[n].run.Book? && worlds[n].run.ledgers != [] && worlds[n + 1].run.Book?
    ensures var run, s := worlds[n].run, worlds[n].store;
      var l := ToLedgerLine(run.ledgers[0]);
      && worlds[n + 1].run.owed == LedgerWrites(l, Map(run.payments, AsPayment()))
      && (run.start <= l.bookedAt < run.end && NoOverflow(s, l.bookedAt) ==>
            SameVerdict(l, Map(run.payments, AsPayment()), AllPayments(s)))
  {
    FreshAlong(worlds, steps, i, n);
    StepOf(worlds, steps, n);
    hide Behaves;
    LedgerDecisionIsFresh(worlds[n]);
    hide SameVerdict;
    hide LedgerWrites;
    hide NoOverflow;
  }

  lemma LedgerDecisionIsFresh(w: World)
    requires Fresh(w) && Enabled(w, DecideLedger)
    ensures var run, l := w.run, ToLedgerLine(w.run.ledgers[0]);
      run.start <= l.bookedAt < run.end && NoOverflow(w.store, l.bookedAt) ==>
        SameVerdict(l, Map(run.payments, AsPayment()), AllPayments(w.store))
  {
    var run, l := w.run, ToLedgerLine(w.run.ledgers[0]);
    if run.start <= l.bookedAt < run.end { LedgerWindow(w.store, run.start, run.end, l, run.payments); }
    hide SameVerdict;
    hide NoOverflow;
  }

  /** Resolving an open exception takes away one outcome of its record, so the next run decides the payment anew. */
  lemma ResolutionReopens(w: World, index: nat)
    requires index < |w.store.exceptions| && !w.store.exceptions[index].resolved
    ensures var record := w.store.exceptions[index].exception.record;
      Outcomes(Do(w, Resolve(index)).store, record) == Outcomes(w.store, record) - 1
  {
    var rows := w.store.exceptions;
    FilterReplaced(rows, index, rows[index].(resolved := true), OpenExceptionOf(rows[index].exception.record));
    hide Filter;
  }

  // ---------------------------------------------------------------- the same run again

  /** The step closes no open exception of a payment. */
  predicate SparesPayments(w: World, step: Step)
  {
    step.Resolve? && step.index < |w.store.exceptions| ==>
      w.store.exceptions[step.index].exception.record.LedgerRecord? || w.store.exceptions[step.index].resolved
  }

  /** Ingestion of rows other than payments, or a resolution that closes no exception of a payment. */
  predicate Passive(w: World, step: Step)
  {
    step.IngestLine? || step.IngestLedger? || (step.Resolve? && SparesPayments(w, step))
  }

  lemma {:induction false} PaymentsStay(worlds: seq<World>, steps: seq<Step>, i: nat, j: nat)
    requires Behaves(worlds, steps) && i <= j < |worlds| && forall k :: i <= k < j ==> !steps[k].IngestPayment?
    ensures worlds[j].store.payments == worlds[i].store.payments
  {
    hide *;
    LengthOf(worlds, steps);
    if i < j {
      PaymentsStay(worlds, steps, i, j - 1);
      StepOf(worlds, steps, j - 1);
      assert !steps[j - 1].IngestPayment?;
      StepKeepsPayments(worlds[j - 1], steps[j - 1]);
    }
  }

  lemma StepKeepsPayments(w: World, step: Step)
    requires Enabled(w, step) && !step.IngestPayment?
    ensures Do(w, step).store.payments == w.store.payments
  {
  }

  lemma {:induction false} OutcomesStay(worlds: seq<World>, steps: seq<Step>, i: nat, j: nat, id: string)
    requires Behaves(worlds, steps) && i <= j < |worlds| && |steps| < |worlds|
    requires forall k :: i <= k < j ==> Passive(worlds[k], steps[k])
    ensures Outcomes(worlds[j].store, PaymentRecord(id)) == Outcomes(worlds[i].store, PaymentRecord(id))
  {
    hide *;
    LengthOf(worlds, steps);
    if i < j {
      OutcomesStay(worlds, steps, i, j - 1, id);
      StepOf(worlds, steps, j - 1);
      assert Passive(worlds[j - 1], steps[j - 1]);
      PassiveKeepsOutcomes(worlds[j - 1], steps[j - 1], id);
    }
  }

  lemma PassiveKeepsOutcomes(w: World, step: Step, id: string)
    requires Enabled(w, step) && Passive(w, step)
    ensures Outcomes(Do(w, step).store, PaymentRecord(id)) == Outcomes(w.store, PaymentRecord(id))
  {
    if step.Resolve? { SparingResolve(w, step.index, PaymentRecord(id)); }
    hide Filter;
  }

  /** Beginning the same run again after it finished, with no payment ingested since it began, no exception of a payment
      closed and no other run in between, finds no payment to visit. */
  lemma RerunIsQuiet(worlds: seq<World>, steps: seq<Step>, b: nat, n: nat, m: nat)
    requires Behaves(worlds, steps) && worlds[0].run.Idle? && Consistent(worlds[0].store)
    requires b < n < m < |steps| && RunBetween(worlds, steps, b, n)
    requires forall j :: b < j < m ==> !steps[j].IngestPayment?
    requires forall j :: n < j < m ==> Passive(worlds[j], steps[j])
    requires steps[m].Begin? && steps[m].start == steps[b].start && steps[m].end == steps[b].end
    ensures steps[m].queue == []
  {
    LengthOf(worlds, steps);
    StepOf(worlds, steps, b);
    StepOf(worlds, steps, m);
    var s, start, end := worlds[m].store, steps[b].start, steps[b].end;
    StepKeepsPayments(worlds[b], steps[b]);
    PaymentsStay(worlds, steps, b + 1, m);
    assert multiset(steps[m].queue) == multiset(Filter(s.payments, UnmatchedIn(s, start, end)));
    hide *;
    forall i | 0 <= i < |s.payments| ensures !UnmatchedIn(s, start, end)(s.payments[i]) {
      RerunPaymentDecided(worlds, steps, b, n, m, s.payments[i]);
    }
    FilterNone(s.payments, UnmatchedIn(s, start, end));
    assert |multiset(steps[m].queue)| == 0;
  }

  /** Steps `b` to `n` are one run that finishes, during which no exception of a payment is closed. */
  predicate RunBetween(worlds: seq<World>, steps: seq<Step>, b: nat, n: nat)
    requires |steps| < |worlds| && b < n < |steps|
  {
    && steps[b].Begin?
    && steps[n].Finish?
    && forall j :: b < j < n ==>
         !steps[j].Begin? && !steps[j].Fail? && !steps[j].Finish? && SparesPayments(worlds[j], steps[j])
  }

  lemma RunSpares(worlds: seq<World>, steps: seq<Step>, b: nat, n: nat, id: string)
    requires |steps| < |worlds| && b < n < |steps| && RunBetween(worlds, steps, b, n)
    ensures steps[b].Begin? && steps[n].Finish?
    ensures forall j :: b < j < n ==> Inner(worlds[j], steps[j], PaymentRecord(id))
  {
  }

  lemma RerunPaymentDecided(worlds: seq<World>, steps: seq<Step>, b: nat, n: nat, m: nat, r: PaymentRow)
    requires Behaves(worlds, steps) && worlds[0].run.Idle? && Consistent(worlds[0].store)
    requires |steps| < |worlds| && b < n < m < |steps| && RunBetween(worlds, steps, b, n)
    requires forall j :: n < j < m ==> Passive(worlds[j], steps[j])
    requires steps[b].Begin? && r in worlds[b].store.payments
    ensures !UnmatchedIn(worlds[m].store, steps[b].start, steps[b].end)(r)
  {
    hide Behaves;
    hide Outcomes;
    if CapturedIn(r, steps[b].start, steps[b].end) {
      RunSpares(worlds, steps, b, n, r.id);
      FinishedRunDecides(worlds, steps, b, n, r);
      OutcomesStay(worlds, steps, n + 1, m, r.id);
    }
  }

  // ---------------------------------------------------------------- overlapping runs

  /** Serialisation is needed, and this is when. A second run over any window loads after the first has made `k` of its
      writes, and `ws` is any interleaving of what both still write. A payment ends up with at most one outcome exactly
      when the first run had none to write for it any more or the second did not load it. */
  lemma OverlappingRunsIff(s: Store, start1: int, end1: int, loads1: Loads, rank1: Ranker, k: nat,
                           start2: int, end2: int, loads2: Loads, rank2: Ranker, ws: seq<Write>, id: string)
    requires Consistent(s) && Loaded(s, start1, end1, loads1) && k <= |Plan(loads1, rank1)|
    requires Loaded(ApplyAll(s, Plan(loads1, rank1)[..k]), start2, end2, loads2)
    requires multiset(ws) == multiset(Plan(loads1, rank1)[k..] + Plan(loads2, rank2))
    ensures Outcomes(ApplyAll(ApplyAll(s, Plan(loads1, rank1)[..k]), ws), PaymentRecord(id)) <= 1 <==>
      Filter(Plan(loads1, rank1)[k..], TouchesFor(PaymentRecord(id))) == [] || Filter(loads2.payments, RowOf(id)) == []
  {
    hide *;
    var plan1, plan2, record := Plan(loads1, rank1), Plan(loads2, rank2), PaymentRecord(id);
    var t := ApplyAll(s, plan1[..k]);
    PartialRun(s, start1, end1, loads1, rank1, k, id);
    OutcomesAfter(t, ws, record);
    FilterPermuted(ws, plan1[k..] + plan2, TouchesFor(record));
    FilterAppend(plan1[k..], plan2, TouchesFor(record));
    PlanTouches(loads2, rank2, record);
    VisitedOnce(t, start2, end2, loads2, id);
  }

  /** What a run has written for a payment and what it still has to write is one outcome at most. */
  lemma PartialRun(s: Store, start: int, end: int, loads: Loads, rank: Ranker, k: nat, id: string)
    requires Consistent(s) && Loaded(s, start, end, loads) && k <= |Plan(loads, rank)|
    ensures DistinctKeys(ApplyAll(s, Plan(loads, rank)[..k]))
    ensures Outcomes(ApplyAll(s, Plan(loads, rank)[..k]), PaymentRecord(id)) +
      |Filter(Plan(loads, rank)[k..], TouchesFor(PaymentRecord(id)))| <= 1
  {
    hide *;
    var plan := Plan(loads, rank);
    ConsistentKeys(s);
    KeysAfter(s, plan[..k]);
    AtMostOneOutcome(s, start, end, loads, rank, |plan|, id);
    OutcomesInParts(s, plan, k, PaymentRecord(id));
  }

  lemma ConsistentKeys(s: Store)
    requires Consistent(s)
    ensures DistinctKeys(s)
  {
  }

  lemma OutcomesInParts(s: Store, ws: seq<Write>, k: nat, record: Record)
    requires k <= |ws|
    ensures Outcomes(ApplyAll(s, ws[..|ws|]), record) ==
      Outcomes(ApplyAll(s, ws[..k]), record) + |Filter(ws[k..], TouchesFor(record))|
  {
    hide *;
    assert ws[..|ws|] == ws[..k] + ws[k..];
    ApplyAppend(s, ws[..k], ws[k..]);
    OutcomesAfter(ApplyAll(s, ws[..k]), ws[k..], record);
  }

  /** In particular two runs that load from the same tables give a payment two outcomes exactly when both load it. */
  lemma SimultaneousRunsIff(s: Store, start1: int, end1: int, loads1: Loads, rank1: Ranker, start2: int, end2: int,
                            loads2: Loads, rank2: Ranker, ws: seq<Write>, id: string)
    requires Consistent(s) && Loaded(s, start1, end1, loads1) && Loaded(s, start2, end2, loads2)
    requires multiset(ws) == multiset(Plan(loads1, rank1) + Plan(loads2, rank2))
    ensures Outcomes(ApplyAll(s, ws), PaymentRecord(id)) <= 1 <==>
      !(exists r :: r in loads1.payments && r.id == id) || !(exists r :: r in loads2.payments && r.id == id)
  {
    var plan1 := Plan(loads1, rank1);
    assert plan1[..0] == [] && plan1[0..] == plan1 && ApplyAll(s, []) == s;
    HoldsRow(loads1.payments, id);
    HoldsRow(loads2.payments, id);
    hide *;
    OverlappingRunsIff(s, start1, end1, loads1, rank1, 0, start2, end2, loads2, rank2, ws, id);
    PlanTouches(loads1, rank1, PaymentRecord(id));
  }

  lemma HoldsRow(rows: seq<PaymentRow>, id: string)
    ensures Filter(rows, RowOf(id)) == [] <==> !(exists r :: r in rows && r.id == id)
  {
    FilterMembers(rows, RowOf(id));
    if Filter(rows, RowOf(id)) != [] {
      assert Filter(rows, RowOf(id))[0] in Filter(rows, RowOf(id));
    }
    if r :| r in rows && r.id == id {
      assert RowOf(id)(r);
    }
  }
}
