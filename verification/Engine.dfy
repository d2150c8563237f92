/** One matching run (internal/matcher/dispatcher.go) as the sequence of rows it writes, and what every run,
    complete or cut short after any write, leaves in the tables. */
module Engine {
  import opened Sequences
  import opened Recon
  import opened Tables

  // ---------------------------------------------------------------- writes

  datatype Write = InsertMatch(row: MatchRow)
                 | InsertException(exception: Exception)
                 | SetMatched(ledgerId: nat, paymentId: string)
                 | AppendAudit(event: AuditEvent)

  function PointLedger(ledgerId: nat, paymentId: string): LedgerRow -> LedgerRow
  {
    (r: LedgerRow) => if r.id == ledgerId && r.matched.None? then r.(matched := Some(paymentId)) else r
  }

  /** One store write. */
  function Apply(s: Store, w: Write): Store
  {
    match w
    case InsertMatch(row) => s.(matches := s.matches + [row])
    case InsertException(e) => s.(exceptions := s.exceptions + [ExceptionRow(e, false)])
    case SetMatched(l, p) => s.(ledgers := Map(s.ledgers, PointLedger(l, p)))
    case AppendAudit(e) => s.(audit := s.audit + [e])
  }

  function ApplyAll(s: Store, ws: seq<Write>): Store
  {
    if ws == [] then s else Apply(ApplyAll(s, ws[..|ws| - 1]), ws[|ws| - 1])
  }

  lemma {:induction false} ApplyAppend(s: Store, a: seq<Write>, b: seq<Write>)
    ensures ApplyAll(s, a + b) == ApplyAll(ApplyAll(s, a), b)
  {
    if b == [] {
      assert a + b == a;
    } else {
      ApplyAppend(s, a, b[..|b| - 1]);
      assert (a + b)[..|a + b| - 1] == a + b[..|b| - 1];
    }
  }

  /** A ledger line is pointed at a payment once: no write changes one that is. */
  lemma {:induction false} PointerIsFinal(s: Store, ws: seq<Write>, i: nat)
    requires i < |s.ledgers| && s.ledgers[i].matched.Some?
    ensures i < |ApplyAll(s, ws).ledgers| && ApplyAll(s, ws).ledgers[i] == s.ledgers[i]
  {
    if ws != [] { PointerIsFinal(s, ws[..|ws| - 1], i); }
  }

  // ---------------------------------------------------------------- what a run decides

  /** The fuzzy ranker: None when it is not configured or fails. */
  type Ranker = (Payment, seq<SettlementLine>) -> Option<seq<Ranked>>

  /** classifyAfterTier2. */
  function ClassifyAfterTier2(p: Payment, lines: seq<SettlementLine>, rank: Ranker): Exception
  {
    if lines == [] || rank(p, lines).None? || rank(p, lines).value == [] then PaymentException(p, lines)
    else Exception(PaymentRecord(p.id), Ambiguous, p.amount, RankedCandidates(p.NetAmount(), rank(p, lines).value))
  }

  function MatchWrites(m: MatchResult): seq<Write>
  {
    var record := PaymentRecord(m.paymentId);
    [InsertMatch(MatchRow(record, m.confidence, m.rule, m.evidence)),
     AppendAudit(MatchResultWritten(record, m.confidence, m.rule))]
  }

  function ExceptionWrites(e: Exception): seq<Write>
  {
    [InsertException(e), AppendAudit(ExceptionLogged(e.record, e.reason))]
  }

  function LedgerMatchWrites(m: MatchResult, ledgerId: nat): seq<Write>
  {
    var record := LedgerRecord(ledgerId);
    [InsertMatch(MatchRow(record, m.confidence, m.rule, m.evidence)), SetMatched(ledgerId, m.paymentId),
     AppendAudit(LedgerMatchWritten(record, m.paymentId, m.rule))]
  }

  function PaymentWrites(p: Payment, lines: seq<SettlementLine>, rank: Ranker): seq<Write>
  {
    if DeterministicMatch(p, lines).Some? then MatchWrites(DeterministicMatch(p, lines).value)
    else ExceptionWrites(ClassifyAfterTier2(p, lines, rank))
  }

  function LedgerWrites(l: LedgerLine, payments: seq<Payment>): seq<Write>
  {
    if TierLPayment(l, payments).Some? then LedgerMatchWrites(TierLResult(l, TierLPayment(l, payments).value), l.id)
    else ExceptionWrites(LedgerException(l, payments))
  }

  /** What the run's queries returned, in the order in which the run visits the rows. */
  datatype Loads = Loads(payments: seq<PaymentRow>, lines: string -> seq<SettlementLine>,
                         ledgers: seq<LedgerRow>, ledgerPayments: seq<PaymentRow>)

  /** The loads hold exactly the selected rows, in any order: neither ties in ORDER BY nor the map iteration
      order over payment methods is fixed. */
  ghost predicate Loaded(s: Store, start: int, end: int, loads: Loads)
  {
    && multiset(loads.payments) == multiset(Filter(s.payments, UnmatchedIn(s, start, end)))
    && (forall m :: multiset(loads.lines(m)) == multiset(Filter(s.lines, CandidateIn(m, start, end + SlaFor(m)))))
    && multiset(loads.ledgers) == multiset(Filter(s.ledgers, UnmatchedLedgerIn(start - 2 * LAG, end + 2 * LAG)))
    && multiset(loads.ledgerPayments) == multiset(Filter(s.payments, InWindow(start - LAG, end + LAG)))
  }

  function PaymentStep(lines: string -> seq<SettlementLine>, rank: Ranker): PaymentRow -> seq<Write>
  {
    (r: PaymentRow) => PaymentWrites(Settling(r), lines(r.paymentMethod), rank)
  }

  function LedgerStep(payments: seq<PaymentRow>): LedgerRow -> seq<Write>
  {
    (r: LedgerRow) => LedgerWrites(ToLedgerLine(r), Map(payments, AsPayment()))
  }

  function SettlementPlan(loads: Loads, rank: Ranker): seq<Write>
  {
    Flat(loads.payments, PaymentStep(loads.lines, rank))
  }

  function LedgerPlan(loads: Loads): seq<Write> { Flat(loads.ledgers, LedgerStep(loads.ledgerPayments)) }

  /** Every write of a complete run. A run that fails has performed a prefix of it. */
  function Plan(loads: Loads, rank: Ranker): seq<Write> { SettlementPlan(loads, rank) + LedgerPlan(loads) }

  // ---------------------------------------------------------------- counting outcomes

  predicate Touches(w: Write, record: Record)
  {
    (w.InsertMatch? && w.row.record == record) || (w.InsertException? && w.exception.record == record)
  }

  function TouchesFor(record: Record): Write -> bool { (w: Write) => Touches(w, record) }

  lemma OutcomesAfterOne(s: Store, w: Write, record: Record)
    ensures Outcomes(Apply(s, w), record) == Outcomes(s, record) + if Touches(w, record) then 1 else 0
  {
    match w
    case InsertMatch(row) =>
      FilterAppend(s.matches, [row], MatchOf(record));
      FilterOne(row, MatchOf(record));
    case InsertException(e) =>
      FilterAppend(s.exceptions, [ExceptionRow(e, false)], OpenExceptionOf(record));
      FilterOne(ExceptionRow(e, false), OpenExceptionOf(record));
    case SetMatched(_, _) =>
    case AppendAudit(_) =>
  }

  lemma {:induction false} OutcomesAfter(s: Store, ws: seq<Write>, record: Record)
    ensures Outcomes(ApplyAll(s, ws), record) == Outcomes(s, record) + |Filter(ws, TouchesFor(record))|
  {
    if ws != [] {
      hide Outcomes;
      OutcomesAfter(s, ws[..|ws| - 1], record);
      OutcomesAfterOne(ApplyAll(s, ws[..|ws| - 1]), ws[|ws| - 1], record);
    }
  }

  function RowOf(id: string): PaymentRow -> bool { (r: PaymentRow) => r.id == id }
  function LedgerRowOf(id: nat): LedgerRow -> bool { (r: LedgerRow) => r.id == id }

  lemma PairTouches(a: Write, b: Write, record: Record)
    requires !Touches(b, record)
    ensures |Filter([a, b], TouchesFor(record))| == if Touches(a, record) then 1 else 0
  {
    FilterAppend([a], [b], TouchesFor(record));
    FilterOne(a, TouchesFor(record));
    FilterOne(b, TouchesFor(record));
    assert [a] + [b] == [a, b];
  }

  lemma PaymentStepTouches(p: Payment, lines: seq<SettlementLine>, rank: Ranker, record: Record)
    ensures |Filter(PaymentWrites(p, lines, rank), TouchesFor(record))| ==
      if record == PaymentRecord(p.id) then 1 else 0
  {
    hide TouchesFor;
    var ws := PaymentWrites(p, lines, rank);
    assert ws == [ws[0], ws[1]];
    PairTouches(ws[0], ws[1], record);
  }

  lemma LedgerStepTouches(l: LedgerLine, payments: seq<Payment>, record: Record)
    ensures |Filter(LedgerWrites(l, payments), TouchesFor(record))| == if record == LedgerRecord(l.id) then 1 else 0
  {
    var ws := LedgerWrites(l, payments);
    if |ws| == 2 {
      assert ws == [ws[0], ws[1]];
      PairTouches(ws[0], ws[1], record);
    } else {
      assert ws == [ws[0], ws[1]] + [ws[2]];
      PairTouches(ws[0], ws[1], record);
      FilterAppend([ws[0], ws[1]], [ws[2]], TouchesFor(record));
      FilterOne(ws[2], TouchesFor(record));
    }
  }

  /** The settlement side writes one outcome per visited row of a payment, and nothing else about payments or
      ledgers. */
  lemma {:induction false} SettlementTouches(rows: seq<PaymentRow>, lines: string -> seq<SettlementLine>, rank: Ranker,
                                             record: Record)
    ensures |Filter(Flat(rows, PaymentStep(lines, rank)), TouchesFor(record))|
         == if record.PaymentRecord? then |Filter(rows, RowOf(record.paymentId))| else 0
  {
    if rows != [] {
      var init, r := rows[..|rows| - 1], rows[|rows| - 1];
      SettlementTouches(init, lines, rank, record);
      FilterAppend(Flat(init, PaymentStep(lines, rank)), PaymentStep(lines, rank)(r), TouchesFor(record));
      PaymentStepTouches(Settling(r), lines(r.paymentMethod), rank, record);
    }
  }

  lemma {:induction false} LedgerTouches(rows: seq<LedgerRow>, payments: seq<PaymentRow>, record: Record)
    ensures |Filter(Flat(rows, LedgerStep(payments)), TouchesFor(record))|
         == if record.LedgerRecord? then |Filter(rows, LedgerRowOf(record.ledgerId))| else 0
  {
    if rows != [] {
      var init, r := rows[..|rows| - 1], rows[|rows| - 1];
      LedgerTouches(init, payments, record);
      FilterAppend(Flat(init, LedgerStep(payments)), LedgerStep(payments)(r), TouchesFor(record));
      LedgerStepTouches(ToLedgerLine(r), Map(payments, AsPayment()), record);
    }
  }

  lemma PlanTouches(loads: Loads, rank: Ranker, record: Record)
    ensures |Filter(Plan(loads, rank), TouchesFor(record))|
         == if record.PaymentRecord? then |Filter(loads.payments, RowOf(record.paymentId))|
            else |Filter(loads.ledgers, LedgerRowOf(record.ledgerId))|
  {
    SettlementTouches(loads.payments, loads.lines, rank, record);
    LedgerTouches(loads.ledgers, loads.ledgerPayments, record);
    FilterAppend(SettlementPlan(loads, rank), LedgerPlan(loads), TouchesFor(record));
  }

  // ---------------------------------------------------------------- the outcome invariant

  /** Primary keys. */
  ghost predicate DistinctKeys(s: Store)
  {
    && (forall i, j :: 0 <= i < j < |s.payments| ==> s.payments[i].id != s.payments[j].id)
    && (forall i, j :: 0 <= i < j < |s.ledgers| ==> s.ledgers[i].id != s.ledgers[j].id)
  }

  /** A ledger line that points at a payment has a match row. */
  ghost predicate PointersBacked(s: Store)
  {
    forall i :: 0 <= i < |s.ledgers| && s.ledgers[i].matched.Some? ==> HasMatch(s, LedgerRecord(s.ledgers[i].id))
  }

  predicate HasMatch(s: Store, record: Record) { exists i :: 0 <= i < |s.matches| && s.matches[i].record == record }

  /** Every payment has at most one of {match row, open exception}, and ledger pointers are backed. */
  ghost predicate Consistent(s: Store)
  {
    && DistinctKeys(s)
    && PointersBacked(s)
    && forall id: string :: Outcomes(s, PaymentRecord(id)) <= 1
  }

  lemma {:induction false} SubFilterLength<T>(rows: seq<T>, p: T -> bool, q: T -> bool)
    ensures |Filter(Filter(rows, p), q)| <= |Filter(rows, q)|
  {
    if rows != [] {
      var init, last := rows[..|rows| - 1], rows[|rows| - 1];
      SubFilterLength(init, p, q);
      FilterAppend(Filter(init, p), if p(last) then [last] else [], q);
      FilterOne(last, q);
    }
  }

  /** A key that occurs once in a table occurs in a query result once if its row was selected, else not at all. */
  lemma SelectedOnce<T>(rows: seq<T>, selected: T -> bool, loaded: seq<T>, key: T -> bool)
    requires forall i, j :: 0 <= i < j < |rows| ==> !(key(rows[i]) && key(rows[j]))
    requires multiset(loaded) == multiset(Filter(rows, selected))
    ensures |Filter(loaded, key)| <= 1
    ensures |Filter(loaded, key)| == 1 ==> exists r :: r in rows && key(r) && selected(r)
    ensures forall r | r in rows :: key(r) && selected(r) ==> |Filter(loaded, key)| == 1
  {
    var pending := Filter(rows, selected);
    var visits := Filter(pending, key);
    FilterPermuted(loaded, pending, key);
    AtMostOneRow(rows, key);
    SubFilterLength(rows, selected, key);
    FilterMembers(rows, selected);
    FilterMembers(pending, key);
    if |visits| == 1 { assert visits[0] in visits; }
  }

  /** A run visits a payment at most once, and only one that has no outcome yet. */
  lemma VisitedOnce(s: Store, start: int, end: int, loads: Loads, id: string)
    requires DistinctKeys(s) && Loaded(s, start, end, loads)
    ensures |Filter(loads.payments, RowOf(id))| <= 1
    ensures |Filter(loads.payments, RowOf(id))| == 1 ==> Outcomes(s, PaymentRecord(id)) == 0
    ensures forall r | r in s.payments ::
      r.id == id && CapturedIn(r, start, end) && Outcomes(s, PaymentRecord(id)) == 0 ==>
        |Filter(loads.payments, RowOf(id))| == 1
  {
    hide Outcomes;
    assert forall i, j :: 0 <= i < j < |s.payments| ==> !(RowOf(id)(s.payments[i]) && RowOf(id)(s.payments[j]));
    SelectedOnce(s.payments, UnmatchedIn(s, start, end), loads.payments, RowOf(id));
  }

  lemma {:induction false} Frame(s: Store, ws: seq<Write>)
    ensures ApplyAll(s, ws).payments == s.payments && ApplyAll(s, ws).lines == s.lines
    ensures |ApplyAll(s, ws).ledgers| == |s.ledgers|
    ensures forall i :: 0 <= i < |s.ledgers| ==>
      ApplyAll(s, ws).ledgers[i].(matched := None) == s.ledgers[i].(matched := None)
  {
    if ws != [] { Frame(s, ws[..|ws| - 1]); }
  }

  lemma {:induction false} FilterPrefix<T>(ws: seq<T>, k: nat, p: T -> bool)
    requires k <= |ws|
    ensures |Filter(ws[..k], p)| <= |Filter(ws, p)|
  {
    FilterAppend(ws[..k], ws[k..], p);
    assert ws == ws[..k] + ws[k..];
  }

  /** A ledger pointer is only ever set right after the match row of that line. */
  predicate Backed(ws: seq<Write>)
  {
    forall k :: 0 <= k < |ws| && ws[k].SetMatched?
      ==> k > 0 && ws[k - 1].InsertMatch? && ws[k - 1].row.record == LedgerRecord(ws[k].ledgerId)
  }

  lemma {:induction false} FlatBacked<T>(rows: seq<T>, step: T -> seq<Write>)
    requires forall r | r in rows :: Backed(step(r))
    ensures Backed(Flat(rows, step))
  {
    if rows != [] {
      FlatBacked(rows[..|rows| - 1], step);
      ConcatBacked(Flat(rows[..|rows| - 1], step), step(rows[|rows| - 1]));
    }
  }

  lemma ConcatBacked(a: seq<Write>, b: seq<Write>)
    requires Backed(a) && Backed(b)
    ensures Backed(a + b)
  {
    var c := a + b;
    forall k | 0 <= k < |c| && c[k].SetMatched?
      ensures k > 0 && c[k - 1].InsertMatch? && c[k - 1].row.record == LedgerRecord(c[k].ledgerId)
    {
      if k < |a| { assert a[k] == c[k]; } else { assert b[k - |a|] == c[k] && b[k - |a| - 1] == c[k - 1]; }
    }
  }

  lemma PaymentWritesBacked(p: Payment, lines: seq<SettlementLine>, rank: Ranker)
    ensures Backed(PaymentWrites(p, lines, rank))
  {
  }

  lemma PlanBacked(loads: Loads, rank: Ranker)
    ensures Backed(Plan(loads, rank))
  {
    forall r: PaymentRow ensures Backed(PaymentStep(loads.lines, rank)(r)) {
      PaymentWritesBacked(Settling(r), loads.lines(r.paymentMethod), rank);
    }
    FlatBacked(loads.payments, PaymentStep(loads.lines, rank));
    FlatBacked(loads.ledgers, LedgerStep(loads.ledgerPayments));
    ConcatBacked(SettlementPlan(loads, rank), LedgerPlan(loads));
  }

  lemma PointersAfterOne(s: Store, w: Write)
    requires PointersBacked(s)
    requires w.SetMatched? ==> HasMatch(s, LedgerRecord(w.ledgerId))
    ensures PointersBacked(Apply(s, w))
  {
    var t := Apply(s, w);
    forall i | 0 <= i < |t.ledgers| && t.ledgers[i].matched.Some? ensures HasMatch(t, LedgerRecord(t.ledgers[i].id)) {
      var record := LedgerRecord(t.ledgers[i].id);
      assert HasMatch(s, record) by { assert t.ledgers[i].id == s.ledgers[i].id; }
      var m :| 0 <= m < |s.matches| && s.matches[m].record == record;
      assert t.matches[m].record == record;
    }
  }

  lemma {:induction false} PointersAfter(s: Store, ws: seq<Write>)
    requires PointersBacked(s) && Backed(ws)
    ensures PointersBacked(ApplyAll(s, ws))
  {
    if ws != [] {
      var init, w := ws[..|ws| - 1], ws[|ws| - 1];
      assert Backed(init) by { assert forall k :: 0 <= k < |init| ==> init[k] == ws[k]; }
      PointersAfter(s, init);
      if w.SetMatched? {
        var t := ApplyAll(s, init[..|init| - 1]);
        assert init[|init| - 1] == ws[|ws| - 2];
        assert ApplyAll(s, init).matches == t.matches + [init[|init| - 1].row];
        assert ApplyAll(s, init).matches[|t.matches|].record == LedgerRecord(w.ledgerId);
      }
      PointersAfterOne(ApplyAll(s, init), w);
    }
  }

  lemma KeysAfter(s: Store, ws: seq<Write>)
    requires DistinctKeys(s)
    ensures DistinctKeys(ApplyAll(s, ws))
  {
    Frame(s, ws);
    var t := ApplyAll(s, ws);
    forall i, j | 0 <= i < j < |t.ledgers| ensures t.ledgers[i].id != t.ledgers[j].id {
      assert t.ledgers[i].(matched := None) == s.ledgers[i].(matched := None);
      assert t.ledgers[j].(matched := None) == s.ledgers[j].(matched := None);
    }
  }

  lemma AtMostOneOutcome(s: Store, start: int, end: int, loads: Loads, rank: Ranker, k: nat, id: string)
    requires Consistent(s) && Loaded(s, start, end, loads) && k <= |Plan(loads, rank)|
    ensures Outcomes(ApplyAll(s, Plan(loads, rank)[..k]), PaymentRecord(id)) <= 1
  {
    var ws := Plan(loads, rank);
    assert Outcomes(s, PaymentRecord(id)) <= 1;
    hide Outcomes;
    hide Filter;
    hide Plan;
    OutcomesAfter(s, ws[..k], PaymentRecord(id));
    FilterPrefix(ws, k, TouchesFor(PaymentRecord(id)));
    PlanTouches(loads, rank, PaymentRecord(id));
    VisitedOnce(s, start, end, loads, id);
  }

  /** A run stopped after any number of writes keeps the invariant. */
  lemma RunKeepsConsistent(s: Store, start: int, end: int, loads: Loads, rank: Ranker, k: nat)
    requires Consistent(s) && Loaded(s, start, end, loads) && k <= |Plan(loads, rank)|
    ensures Consistent(ApplyAll(s, Plan(loads, rank)[..k]))
  {
    var ws := Plan(loads, rank);
    forall id: string ensures Outcomes(ApplyAll(s, ws[..k]), PaymentRecord(id)) <= 1 {
      AtMostOneOutcome(s, start, end, loads, rank, k, id);
    }
    hide Outcomes;
    hide Plan;
    PlanBacked(loads, rank);
    PointersAfter(s, ws[..k]);
    KeysAfter(s, ws[..k]);
  }

  /** After a complete run every payment captured in [start, end) has exactly one outcome. */
  lemma CompleteRunDecides(s: Store, start: int, end: int, loads: Loads, rank: Ranker, r: PaymentRow)
    requires Consistent(s) && Loaded(s, start, end, loads)
    requires r in s.payments && r.capturedAt.Some? && start <= r.capturedAt.value < end
    ensures Outcomes(ApplyAll(s, Plan(loads, rank)), PaymentRecord(r.id)) == 1
  {
    hide Outcomes;
    OutcomesAfter(s, Plan(loads, rank), PaymentRecord(r.id));
    PlanTouches(loads, rank, PaymentRecord(r.id));
    VisitedOnce(s, start, end, loads, r.id);
  }

  /** Every payment captured in [start, end) has exactly one outcome. */
  ghost predicate Decided(s: Store, start: int, end: int)
  {
    forall r :: r in s.payments && CapturedIn(r, start, end) ==> Outcomes(s, PaymentRecord(r.id)) == 1
  }

  lemma CompleteRunDecidesAll(s: Store, start: int, end: int, loads: Loads, rank: Ranker)
    requires Consistent(s) && Loaded(s, start, end, loads)
    ensures Decided(ApplyAll(s, Plan(loads, rank)), start, end)
  {
    hide Outcomes;
    hide Plan;
    hide Consistent;
    hide Loaded;
    var t := ApplyAll(s, Plan(loads, rank));
    Frame(s, Plan(loads, rank));
    forall r | r in t.payments && CapturedIn(r, start, end) ensures Outcomes(t, PaymentRecord(r.id)) == 1 {
      CompleteRunDecides(s, start, end, loads, rank, r);
    }
  }

  /** Repeating the run writes no payment row: it visits no payment at all. */
  lemma RepeatedRunIsQuiet(s: Store, start: int, end: int, loads: Loads, rank: Ranker, again: Loads, rankAgain: Ranker)
    requires Consistent(s) && Loaded(s, start, end, loads)
    requires Loaded(ApplyAll(s, Plan(loads, rank)), start, end, again)
    ensures SettlementPlan(again, rankAgain) == []
    ensures forall id: string :: Filter(Plan(again, rankAgain), TouchesFor(PaymentRecord(id))) == []
  {
    hide Outcomes;
    var t := ApplyAll(s, Plan(loads, rank));
    Frame(s, Plan(loads, rank));
    forall j | 0 <= j < |t.payments| ensures !UnmatchedIn(t, start, end)(t.payments[j]) {
      if CapturedIn(t.payments[j], start, end) { CompleteRunDecides(s, start, end, loads, rank, t.payments[j]); }
    }
    FilterNone(t.payments, UnmatchedIn(t, start, end));
    assert |multiset(again.payments)| == 0;
    assert again.payments == [];
    forall id: string ensures Filter(Plan(again, rankAgain), TouchesFor(PaymentRecord(id))) == [] {
      PlanTouches(again, rankAgain, PaymentRecord(id));
      assert |Filter(again.payments, RowOf(id))| == 0;
    }
  }

  lemma SameLedger(s: Store, l: LedgerRow, r: LedgerRow)
    requires DistinctKeys(s) && l in s.ledgers && r in s.ledgers && l.id == r.id
    ensures l == r
  {
    var i :| 0 <= i < |s.ledgers| && s.ledgers[i] == l;
    var j :| 0 <= j < |s.ledgers| && s.ledgers[j] == r;
  }

  /** A ledger line is loaded once if it is unmatched and booked in the range, and otherwise not. */
  lemma LedgerVisited(s: Store, start: int, end: int, loads: Loads, l: LedgerRow)
    requires DistinctKeys(s) && Loaded(s, start, end, loads) && l in s.ledgers
    ensures |Filter(loads.ledgers, LedgerRowOf(l.id))| ==
      if UnmatchedLedgerIn(start - 2 * LAG, end + 2 * LAG)(l) then 1 else 0
  {
    var selected, key := UnmatchedLedgerIn(start - 2 * LAG, end + 2 * LAG), LedgerRowOf(l.id);
    assert forall i, j :: 0 <= i < j < |s.ledgers| ==> !(key(s.ledgers[i]) && key(s.ledgers[j]));
    SelectedOnce(s.ledgers, selected, loads.ledgers, key);
    hide Filter;
    hide DistinctKeys;
    hide Loaded;
    if |Filter(loads.ledgers, key)| == 1 {
      var r :| r in s.ledgers && key(r) && selected(r);
      SameLedger(s, l, r);
    }
  }

  /** The ledger side has no such guard: a complete run adds one outcome row to a ledger line exactly when the line is
      unmatched and booked in the run's range, so repeating a run logs each open ledger exception again. */
  lemma LedgerLineLoggedAgain(s: Store, start: int, end: int, loads: Loads, rank: Ranker, l: LedgerRow)
    requires DistinctKeys(s) && Loaded(s, start, end, loads) && l in s.ledgers
    ensures Outcomes(ApplyAll(s, Plan(loads, rank)), LedgerRecord(l.id))
         == Outcomes(s, LedgerRecord(l.id)) + if UnmatchedLedgerIn(start - 2 * LAG, end + 2 * LAG)(l) then 1 else 0
  {
    hide *;
    OutcomesAfter(s, Plan(loads, rank), LedgerRecord(l.id));
    PlanTouches(loads, rank, LedgerRecord(l.id));
    LedgerVisited(s, start, end, loads, l);
  }

  // ---------------------------------------------------------------- agreement between runs

  /** A write without what the ranker and the row order may influence: the reason and evidence of a payment
      exception, the evidence of a ledger exception. */
  function Erase(): Write -> Write
  {
    (w: Write) =>
      match w
      case InsertException(e) =>
        InsertException(if e.record.PaymentRecord? then e.(reason := Ambiguous, evidence := Nothing)
                        else e.(evidence := Nothing))
      case AppendAudit(ExceptionLogged(record, _)) =>
        if record.PaymentRecord? then AppendAudit(ExceptionLogged(record, Ambiguous)) else w
      case _ => w
  }

  lemma PaymentStepAgrees(p: Payment, lines1: seq<SettlementLine>, lines2: seq<SettlementLine>, rank1: Ranker,
                          rank2: Ranker)
    requires multiset(lines1) == multiset(lines2)
    ensures Map(PaymentWrites(p, lines1, rank1), Erase()) == Map(PaymentWrites(p, lines2, rank2), Erase())
  {
    PaymentOrderIndependent(p, lines1, lines2);
    hide DeterministicMatch;
  }

  lemma LedgerStepAgrees(l: LedgerLine, payments1: seq<Payment>, payments2: seq<Payment>)
    requires multiset(payments1) == multiset(payments2)
    ensures Map(LedgerWrites(l, payments1), Erase()) == Map(LedgerWrites(l, payments2), Erase())
  {
    LedgerOrderIndependent(l, payments1, payments2);
    hide TierLPayment;
  }

  /** Two complete runs from equal tables, with any two rankers, row orders and map iteration orders, write the
      same matches, ledger pointers, exceptions and audit entries up to Erase. */
  lemma RunsAgree(s: Store, start: int, end: int, loads1: Loads, rank1: Ranker, loads2: Loads, rank2: Ranker)
    requires Loaded(s, start, end, loads1) && Loaded(s, start, end, loads2)
    ensures multiset(Map(Plan(loads1, rank1), Erase())) == multiset(Map(Plan(loads2, rank2), Erase()))
  {
    SettlementAgrees(loads1, rank1, loads2, rank2);
    LedgerAgrees(loads1, loads2);
    MapAppend(SettlementPlan(loads1, rank1), LedgerPlan(loads1), Erase());
    MapAppend(SettlementPlan(loads2, rank2), LedgerPlan(loads2), Erase());
  }

  function ErasedStep(lines: string -> seq<SettlementLine>, rank: Ranker): PaymentRow -> seq<Write>
  {
    (r: PaymentRow) => Map(PaymentStep(lines, rank)(r), Erase())
  }

  lemma SettlementAgrees(loads1: Loads, rank1: Ranker, loads2: Loads, rank2: Ranker)
    requires multiset(loads1.payments) == multiset(loads2.payments)
    requires forall m :: multiset(loads1.lines(m)) == multiset(loads2.lines(m))
    ensures multiset(Map(SettlementPlan(loads1, rank1), Erase())) ==
      multiset(Map(SettlementPlan(loads2, rank2), Erase()))
  {
    hide PaymentWrites;
    MapFlat(loads1.payments, PaymentStep(loads1.lines, rank1), Erase(), ErasedStep(loads1.lines, rank1));
    MapFlat(loads2.payments, PaymentStep(loads2.lines, rank2), Erase(), ErasedStep(loads2.lines, rank2));
    forall r: PaymentRow ensures ErasedStep(loads1.lines, rank1)(r) == ErasedStep(loads2.lines, rank2)(r) {
      PaymentStepAgrees(Settling(r), loads1.lines(r.paymentMethod), loads2.lines(r.paymentMethod), rank1, rank2);
    }
    FlatSame(loads1.payments, ErasedStep(loads1.lines, rank1), ErasedStep(loads2.lines, rank2));
    FlatPermuted(loads1.payments, loads2.payments, ErasedStep(loads2.lines, rank2));
  }

  function ErasedLedgerStep(payments: seq<PaymentRow>): LedgerRow -> seq<Write>
  {
    (r: LedgerRow) => Map(LedgerStep(payments)(r), Erase())
  }

  lemma LedgerAgrees(loads1: Loads, loads2: Loads)
    requires multiset(loads1.ledgers) == multiset(loads2.ledgers)
    requires multiset(loads1.ledgerPayments) == multiset(loads2.ledgerPayments)
    ensures multiset(Map(LedgerPlan(loads1), Erase())) == multiset(Map(LedgerPlan(loads2), Erase()))
  {
    hide LedgerWrites;
    var p1, p2 := loads1.ledgerPayments, loads2.ledgerPayments;
    MapPermuted(p1, p2, AsPayment());
    MapFlat(loads1.ledgers, LedgerStep(p1), Erase(), ErasedLedgerStep(p1));
    MapFlat(loads2.ledgers, LedgerStep(p2), Erase(), ErasedLedgerStep(p2));
    forall r: LedgerRow ensures ErasedLedgerStep(p1)(r) == ErasedLedgerStep(p2)(r) {
      LedgerStepAgrees(ToLedgerLine(r), Map(p1, AsPayment()), Map(p2, AsPayment()));
    }
    FlatSame(loads1.ledgers, ErasedLedgerStep(p1), ErasedLedgerStep(p2));
    FlatPermuted(loads1.ledgers, loads2.ledgers, ErasedLedgerStep(p2));
  }

  /** The order in which a run visits its payments and ledger lines, map iteration order included, changes nothing in
      the rows it writes, whatever the ranker. */
  lemma VisitOrderWritesSameRows(loads1: Loads, loads2: Loads, rank: Ranker)
    requires multiset(loads1.payments) == multiset(loads2.payments) && loads1.lines == loads2.lines
    requires multiset(loads1.ledgers) == multiset(loads2.ledgers) && loads1.ledgerPayments == loads2.ledgerPayments
    ensures multiset(Plan(loads1, rank)) == multiset(Plan(loads2, rank))
  {
    FlatPermuted(loads1.payments, loads2.payments, PaymentStep(loads2.lines, rank));
    FlatPermuted(loads1.ledgers, loads2.ledgers, LedgerStep(loads2.ledgerPayments));
  }

  /** The ranker has an answer to show. */
  predicate Ranks(p: Payment, lines: seq<SettlementLine>, rank: Ranker)
  {
    lines != [] && rank(p, lines).Some? && rank(p, lines).value != []
  }

  /** What a ranker can change about an exception: it never touches record or amount, and it changes the reason exactly
      when it ranks candidates of which fewer than two fit amount and window, from a mismatch to ambiguous. */
  lemma RankerOnlyRelabels(p: Payment, lines: seq<SettlementLine>, rank: Ranker)
    ensures var plain, ranked := PaymentException(p, lines), ClassifyAfterTier2(p, lines, rank);
      && ranked.record == plain.record
      && ranked.amountAtRisk == plain.amountAtRisk
      && (ranked == plain <==> !Ranks(p, lines, rank))
      && (ranked.reason != plain.reason <==> Ranks(p, lines, rank) && !TwoPlausible(p, lines))
      && (ranked.reason != plain.reason ==> plain.reason == AmountMismatch && ranked.reason == Ambiguous)
  {
    MoreThanOneIff(lines, PlausibleFor(p));
    hide Filter;
  }

  /** The ranking that ends up in the evidence, if any. */
  function Shown(p: Payment, lines: seq<SettlementLine>, rank: Ranker): Option<seq<Ranked>>
  {
    if Ranks(p, lines, rank) then rank(p, lines) else None
  }

  /** Reordering the candidates of a payment leaves what is written for it alone exactly when it is matched or the
      ranker shows the same. */
  lemma StepOrderIff(p: Payment, lines1: seq<SettlementLine>, lines2: seq<SettlementLine>, rank: Ranker)
    requires multiset(lines1) == multiset(lines2)
    ensures PaymentWrites(p, lines1, rank)[0] == PaymentWrites(p, lines2, rank)[0] <==>
      DeterministicMatch(p, lines1).Some? || Shown(p, lines1, rank) == Shown(p, lines2, rank)
    ensures PaymentWrites(p, lines1, rank)[0] == PaymentWrites(p, lines2, rank)[0] ==>
      PaymentWrites(p, lines1, rank) == PaymentWrites(p, lines2, rank)
  {
    PaymentOrderIndependent(p, lines1, lines2);
    PlainEvidence(p, lines1);
    PlainEvidence(p, lines2);
    hide DeterministicMatch;
    hide PaymentException;
  }

  lemma PlainEvidence(p: Payment, lines: seq<SettlementLine>)
    ensures !PaymentException(p, lines).evidence.RankedCandidates?
  {
  }

  /** The one outcome row a settlement side writes for a visited payment. */
  lemma OutcomeOf(rows: seq<PaymentRow>, lines: string -> seq<SettlementLine>, rank: Ranker, r: PaymentRow)
    requires r in rows && |Filter(rows, RowOf(r.id))| == 1
    ensures |PaymentWrites(Settling(r), lines(r.paymentMethod), rank)| == 2
    ensures Filter(Flat(rows, PaymentStep(lines, rank)), TouchesFor(PaymentRecord(r.id))) ==
      [PaymentWrites(Settling(r), lines(r.paymentMethod), rank)[0]]
  {
    hide *;
    var plan, touches := Flat(rows, PaymentStep(lines, rank)), TouchesFor(PaymentRecord(r.id));
    FirstWrite(lines, rank, r);
    var w := PaymentWrites(Settling(r), lines(r.paymentMethod), rank)[0];
    InFlat(rows, PaymentStep(lines, rank), r, w);
    SettlementTouches(rows, lines, rank, PaymentRecord(r.id));
    FilterMembers(plan, touches);
    OnlyMember(Filter(plan, touches), w);
  }

  lemma FirstWrite(lines: string -> seq<SettlementLine>, rank: Ranker, r: PaymentRow)
    ensures var ws := PaymentWrites(Settling(r), lines(r.paymentMethod), rank);
      |ws| == 2 && ws[0] in PaymentStep(lines, rank)(r) && TouchesFor(PaymentRecord(r.id))(ws[0])
  {
  }

  lemma OnlyMember(ws: seq<Write>, w: Write)
    requires |ws| == 1 && w in ws
    ensures ws == [w]
  {
  }

  /** No order in which the candidates come changes the rows of the settlement side exactly when, for every payment it
      visits and does not match, the ranker shows the same in both. */
  lemma CandidateOrderIff(s: Store, start: int, end: int, loads1: Loads, loads2: Loads, rank: Ranker)
    requires DistinctKeys(s) && Loaded(s, start, end, loads1) && Loaded(s, start, end, loads2)
    ensures multiset(SettlementPlan(loads1, rank)) == multiset(SettlementPlan(loads2, rank)) <==>
      forall r :: r in loads1.payments ==> ShownAlike(loads1.lines, loads2.lines, rank, r)
  {
    if multiset(SettlementPlan(loads1, rank)) == multiset(SettlementPlan(loads2, rank)) {
      forall r | r in loads1.payments ensures ShownAlike(loads1.lines, loads2.lines, rank, r) {
        SamePlanShowsAlike(s, start, end, loads1, loads2, rank, r);
      }
    } else if forall r :: r in loads1.payments ==> ShownAlike(loads1.lines, loads2.lines, rank, r) {
      forall r | r in loads1.payments ensures PaymentStep(loads1.lines, rank)(r) == PaymentStep(loads2.lines, rank)(r) {
        StepOrderIff(Settling(r), loads1.lines(r.paymentMethod), loads2.lines(r.paymentMethod), rank);
        hide PaymentWrites;
      }
      hide PaymentStep;
      FlatSame(loads1.payments, PaymentStep(loads1.lines, rank), PaymentStep(loads2.lines, rank));
      FlatPermuted(loads1.payments, loads2.payments, PaymentStep(loads2.lines, rank));
    }
  }

  /** The payment is matched, or the ranker shows the same of both lists of candidates. */
  predicate ShownAlike(lines1: string -> seq<SettlementLine>, lines2: string -> seq<SettlementLine>, rank: Ranker,
                       r: PaymentRow)
  {
    var p, m := Settling(r), r.paymentMethod;
    DeterministicMatch(p, lines1(m)).Some? || Shown(p, lines1(m), rank) == Shown(p, lines2(m), rank)
  }

  lemma SamePlanShowsAlike(s: Store, start: int, end: int, loads1: Loads, loads2: Loads, rank: Ranker, r: PaymentRow)
    requires DistinctKeys(s) && Loaded(s, start, end, loads1) && Loaded(s, start, end, loads2)
    requires multiset(SettlementPlan(loads1, rank)) == multiset(SettlementPlan(loads2, rank)) && r in loads1.payments
    ensures ShownAlike(loads1.lines, loads2.lines, rank, r)
  {
    var m := r.paymentMethod;
    assert r in multiset(loads1.payments) && r in multiset(loads2.payments);
    assert multiset(loads1.lines(m)) == multiset(loads2.lines(m));
    VisitedOnce(s, start, end, loads1, r.id);
    VisitedOnce(s, start, end, loads2, r.id);
    FilterMembers(loads1.payments, RowOf(r.id));
    FilterMembers(loads2.payments, RowOf(r.id));
    assert RowOf(r.id)(r);
    assert r in Filter(loads1.payments, RowOf(r.id)) && r in Filter(loads2.payments, RowOf(r.id));
    assert SettlementPlan(loads1, rank) == Flat(loads1.payments, PaymentStep(loads1.lines, rank));
    assert SettlementPlan(loads2, rank) == Flat(loads2.payments, PaymentStep(loads2.lines, rank));
    hide *;
    FirstWrite(loads1.lines, rank, r);
    FirstWrite(loads2.lines, rank, r);
    OutcomeOf(loads1.payments, loads1.lines, rank, r);
    OutcomeOf(loads2.payments, loads2.lines, rank, r);
    FilterPermuted(SettlementPlan(loads1, rank), SettlementPlan(loads2, rank), TouchesFor(PaymentRecord(r.id)));
    SameSingleton(PaymentWrites(Settling(r), loads1.lines(m), rank)[0],
                  PaymentWrites(Settling(r), loads2.lines(m), rank)[0]);
    ShownAlikeFrom(loads1.lines, loads2.lines, rank, r);
  }

  lemma ShownAlikeFrom(lines1: string -> seq<SettlementLine>, lines2: string -> seq<SettlementLine>, rank: Ranker,
                       r: PaymentRow)
    requires multiset(lines1(r.paymentMethod)) == multiset(lines2(r.paymentMethod))
    requires PaymentWrites(Settling(r), lines1(r.paymentMethod), rank)[0]
          == PaymentWrites(Settling(r), lines2(r.paymentMethod), rank)[0]
    ensures ShownAlike(lines1, lines2, rank, r)
  {
    StepOrderIff(Settling(r), lines1(r.paymentMethod), lines2(r.paymentMethod), rank);
  }

  lemma SameSingleton(a: Write, b: Write)
    requires multiset([a]) == multiset([b])
    ensures a == b
  {
    assert a in multiset([b]);
  }

  /** What a run writes for a visited payment is what matching against every line of its method gives; the window
      only shows in the reason of an exception. */
  lemma RunMatchesLikeWholeTable(s: Store, start: int, end: int, loads: Loads, rank: Ranker, r: PaymentRow)
    requires Loaded(s, start, end, loads) && CapturedIn(r, start, end)
    ensures var whole := DeterministicMatch(Settling(r), AllLines(s, r.paymentMethod));
      && (whole.Some? ==> PaymentStep(loads.lines, rank)(r) == MatchWrites(whole.value))
      && (whole.None? ==> PaymentStep(loads.lines, rank)(r)[0].InsertException?)
  {
    SettlementWindow(s, r, start, end, loads.lines(r.paymentMethod));
    hide DeterministicMatch;
  }

  /** What a run decides for a ledger line booked in [start, end) is what Tier L over every captured payment gives,
      unless some capture is late enough to saturate the time difference. */
  lemma RunBooksLikeWholeTable(s: Store, start: int, end: int, loads: Loads, l: LedgerLine)
    requires Loaded(s, start, end, loads) && start <= l.bookedAt < end
    ensures !NoOverflow(s, l.bookedAt) || SameVerdict(l, Map(loads.ledgerPayments, AsPayment()), AllPayments(s))
  {
    LedgerWindow(s, start, end, l, loads.ledgerPayments);
    hide SameVerdict;
    hide NoOverflow;
  }
}
