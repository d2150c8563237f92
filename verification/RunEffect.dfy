/** What a complete run leaves in the tables, record by record, in terms of the stored rows alone. */
module RunEffect {
  import opened Sequences
  import EditDistance
  import opened Recon
  import opened Tables
  import opened Engine

  // ---------------------------------------------------------------- everything about one record

  /** What the tables say about a record. */
  datatype View = View(matches: seq<MatchRow>, exceptions: seq<ExceptionRow>, audit: seq<AuditEvent>,
                       ledgers: seq<LedgerRow>)

  function ExceptionOf(record: Record): ExceptionRow -> bool { (e: ExceptionRow) => e.exception.record == record }
  function AuditOf(record: Record): AuditEvent -> bool { (e: AuditEvent) => e.record == record }
  function LedgerOf(record: Record): LedgerRow -> bool { (r: LedgerRow) => record == LedgerRecord(r.id) }

  function ViewOf(s: Store, record: Record): View
  {
    View(Filter(s.matches, MatchOf(record)), Filter(s.exceptions, ExceptionOf(record)),
         Filter(s.audit, AuditOf(record)), Filter(s.ledgers, LedgerOf(record)))
  }

  predicate About(w: Write, record: Record)
  {
    match w
    case InsertMatch(row) => row.record == record
    case InsertException(e) => e.record == record
    case SetMatched(l, _) => record == LedgerRecord(l)
    case AppendAudit(e) => e.record == record
  }

  function AboutFor(record: Record): Write -> bool { (w: Write) => About(w, record) }

  function ApplyView(v: View, w: Write): View
  {
    match w
    case InsertMatch(row) => v.(matches := v.matches + [row])
    case InsertException(e) => v.(exceptions := v.exceptions + [ExceptionRow(e, false)])
    case SetMatched(l, p) => v.(ledgers := Map(v.ledgers, PointLedger(l, p)))
    case AppendAudit(e) => v.(audit := v.audit + [e])
  }

  function ApplyAllView(v: View, ws: seq<Write>): View
  {
    if ws == [] then v else ApplyView(ApplyAllView(v, ws[..|ws| - 1]), ws[|ws| - 1])
  }

  lemma PointsElsewhere(rows: seq<LedgerRow>, l: nat, p: string)
    requires forall r :: r in rows ==> r.id != l
    ensures Map(rows, PointLedger(l, p)) == rows
  {
    assert forall i :: 0 <= i < |rows| ==> rows[i] in rows;
  }

  lemma ViewAfterPointer(s: Store, l: nat, p: string, record: Record)
    ensures var t := Apply(s, SetMatched(l, p));
      ViewOf(t, record) ==
        if record == LedgerRecord(l) then ApplyView(ViewOf(s, record), SetMatched(l, p)) else ViewOf(s, record)
  {
    var t := Apply(s, SetMatched(l, p));
    assert t == s.(ledgers := Map(s.ledgers, PointLedger(l, p)));
    PointedLedgers(s.ledgers, l, p, record);
    hide Filter;
    hide Map;
    hide PointLedger;
    hide LedgerOf;
  }

  lemma PointedLedgers(rows: seq<LedgerRow>, l: nat, p: string, record: Record)
    ensures Filter(Map(rows, PointLedger(l, p)), LedgerOf(record)) ==
      if record == LedgerRecord(l) then Map(Filter(rows, LedgerOf(record)), PointLedger(l, p))
      else Filter(rows, LedgerOf(record))
  {
    FilterMap(rows, PointLedger(l, p), LedgerOf(record), LedgerOf(record));
    hide Map;
    if record != LedgerRecord(l) {
      FilterMembers(rows, LedgerOf(record));
      hide Filter;
      PointsElsewhere(Filter(rows, LedgerOf(record)), l, p);
    }
  }

  /** A write changes what the tables say about a record only if it is about that record. */
  lemma ViewAfterOne(s: Store, w: Write, record: Record)
    ensures ViewOf(Apply(s, w), record) ==
      if About(w, record) then ApplyView(ViewOf(s, record), w) else ViewOf(s, record)
  {
    match w
    case InsertMatch(row) => FilterLast(s.matches, row, MatchOf(record));
    case InsertException(e) => FilterLast(s.exceptions, ExceptionRow(e, false), ExceptionOf(record));
    case AppendAudit(e) => FilterLast(s.audit, e, AuditOf(record));
    case SetMatched(l, p) => ViewAfterPointer(s, l, p, record);
  }

  lemma {:induction false} ViewAfter(s: Store, ws: seq<Write>, record: Record)
    ensures ViewOf(ApplyAll(s, ws), record) == ApplyAllView(ViewOf(s, record), Filter(ws, AboutFor(record)))
  {
    if ws != [] {
      var init, w := ws[..|ws| - 1], ws[|ws| - 1];
      assert ws == init + [w];
      ViewAfter(s, init, record);
      ViewAfterOne(ApplyAll(s, init), w, record);
      FilterLast(init, w, AboutFor(record));
      hide ViewOf;
      hide Apply;
      hide Filter;
      var kept := Filter(init, AboutFor(record));
      if About(w, record) {
        assert (kept + [w])[..|kept|] == kept;
      } else {
        assert kept + [] == kept;
      }
    }
  }

  // ---------------------------------------------------------------- which writes of a run are about a record

  lemma AllAbout(ws: seq<Write>, record: Record, other: Record)
    requires forall w :: w in ws ==> About(w, other)
    ensures Filter(ws, AboutFor(record)) == if record == other then ws else []
  {
    if record == other {
      FilterEverything(ws, AboutFor(record));
    } else {
      assert forall i :: 0 <= i < |ws| ==> ws[i] in ws;
      assert forall w: Write :: About(w, other) ==> !About(w, record);
      FilterNone(ws, AboutFor(record));
    }
  }

  lemma PaymentWritesAbout(p: Payment, lines: seq<SettlementLine>, rank: Ranker)
    ensures forall w :: w in PaymentWrites(p, lines, rank) ==> About(w, PaymentRecord(p.id))
  {
    DecidedRecord(p, lines, rank);
  }

  lemma DecidedRecord(p: Payment, lines: seq<SettlementLine>, rank: Ranker)
    ensures ClassifyAfterTier2(p, lines, rank).record == PaymentRecord(p.id)
    ensures DeterministicMatch(p, lines).Some? ==> DeterministicMatch(p, lines).value.paymentId == p.id
  {
  }

  lemma LedgerWritesAbout(l: LedgerLine, payments: seq<Payment>)
    ensures forall w :: w in LedgerWrites(l, payments) ==> About(w, LedgerRecord(l.id))
  {
  }

  lemma PaymentStepAbout(lines: string -> seq<SettlementLine>, rank: Ranker, r: PaymentRow, record: Record)
    ensures Filter(PaymentStep(lines, rank)(r), AboutFor(record)) ==
      if record == PaymentRecord(r.id) then PaymentStep(lines, rank)(r) else []
  {
    PaymentWritesAbout(Settling(r), lines(r.paymentMethod), rank);
    hide PaymentWrites;
    AllAbout(PaymentStep(lines, rank)(r), record, PaymentRecord(r.id));
  }

  lemma LedgerStepAbout(payments: seq<PaymentRow>, r: LedgerRow, record: Record)
    ensures Filter(LedgerStep(payments)(r), AboutFor(record)) ==
      if record == LedgerRecord(r.id) then LedgerStep(payments)(r) else []
  {
    LedgerWritesAbout(ToLedgerLine(r), Map(payments, AsPayment()));
    hide LedgerWrites;
    AllAbout(LedgerStep(payments)(r), record, LedgerRecord(r.id));
  }

  function IsPayment(record: Record): PaymentRow -> bool { (r: PaymentRow) => record == PaymentRecord(r.id) }

  function IsLedger(record: Record): LedgerRow -> bool { (r: LedgerRow) => record == LedgerRecord(r.id) }

  /** The writes decided for the visited rows of a record. */
  function DecidedFor(loads: Loads, rank: Ranker, record: Record): seq<Write>
  {
    Flat(Filter(loads.payments, IsPayment(record)), PaymentStep(loads.lines, rank)) +
    Flat(Filter(loads.ledgers, IsLedger(record)), LedgerStep(loads.ledgerPayments))
  }

  /** Of all the writes of a run those about a record are the ones decided for its visited rows. */
  lemma PlanAbout(loads: Loads, rank: Ranker, record: Record)
    ensures Filter(Plan(loads, rank), AboutFor(record)) == DecidedFor(loads, rank, record)
  {
    var step1, step2 := PaymentStep(loads.lines, rank), LedgerStep(loads.ledgerPayments);
    assert Plan(loads, rank) == Flat(loads.payments, step1) + Flat(loads.ledgers, step2);
    forall r | r in loads.payments
      ensures Filter(step1(r), AboutFor(record)) == if IsPayment(record)(r) then step1(r) else []
    {
      PaymentStepAbout(loads.lines, rank, r, record);
    }
    forall r | r in loads.ledgers
      ensures Filter(step2(r), AboutFor(record)) == if IsLedger(record)(r) then step2(r) else []
    {
      LedgerStepAbout(loads.ledgerPayments, r, record);
    }
    hide PaymentStep;
    hide LedgerStep;
    hide AboutFor;
    hide Filter;
    hide Flat;
    FilterFlat(loads.payments, step1, AboutFor(record), IsPayment(record));
    FilterFlat(loads.ledgers, step2, AboutFor(record), IsLedger(record));
    FilterAppend(Flat(loads.payments, step1), Flat(loads.ledgers, step2), AboutFor(record));
  }

  /** After a complete run the tables say about a record what they said before, changed by the writes decided for it. */
  lemma RunView(s: Store, loads: Loads, rank: Ranker, record: Record)
    ensures ViewOf(ApplyAll(s, Plan(loads, rank)), record) ==
      ApplyAllView(ViewOf(s, record), DecidedFor(loads, rank, record))
  {
    hide *;
    ViewAfter(s, Plan(loads, rank), record);
    PlanAbout(loads, rank, record);
  }

  // ---------------------------------------------------------------- payments

  /** The line has the payment's identifier and net amount and settles within the method's days after capture. */
  predicate Settles(r: PaymentRow, l: SettlementLine) { l.entityId == r.id && Fits(r, l) }

  predicate Fits(r: PaymentRow, l: SettlementLine)
  {
    && r.capturedAt.Some?
    && l.credit + r.fee + r.tax == r.amount
    && 0 <= l.settledAt - r.capturedAt.value <= SlaFor(r.paymentMethod)
  }

  predicate NearlySettles(r: PaymentRow, l: SettlementLine)
  {
    Fits(r, l) && EditDistance.LoopDistance(Normalize(r.id), Normalize(l.entityId)) <= 2
  }

  function SettlesFor(r: PaymentRow): SettlementLine -> bool { (l: SettlementLine) => Settles(r, l) }
  function NearlySettlesFor(r: PaymentRow): SettlementLine -> bool { (l: SettlementLine) => NearlySettles(r, l) }
  function FitsFor(r: PaymentRow): SettlementLine -> bool { (l: SettlementLine) => Fits(r, l) }

  /** The tiers' tests, in terms of the stored row. */
  lemma TierTests(r: PaymentRow, l: SettlementLine)
    requires r.capturedAt.Some?
    ensures ExactFor(Settling(r))(l) <==> Settles(r, l)
    ensures BoundedFor(Settling(r))(l) <==> NearlySettles(r, l)
    ensures PlausibleFor(Settling(r))(l) <==> Fits(r, l)
  {
    hide Normalize;
  }

  lemma {:induction false} SameTest<T>(s: seq<T>, p: T -> bool, q: T -> bool)
    requires forall x :: x in s ==> p(x) == q(x)
    ensures Filter(s, p) == Filter(s, q)
    ensures forall i :: OnlyAt(s, p, i) <==> OnlyAt(s, q, i)
  {
    assert forall i :: 0 <= i < |s| ==> s[i] in s;
    if s != [] { SameTest(s[..|s| - 1], p, q); }
  }

  function Matched(v: View, row: MatchRow, event: AuditEvent): View
  {
    v.(matches := v.matches + [row], audit := v.audit + [event])
  }

  function Logged(v: View, e: Exception): View
  {
    v.(exceptions := v.exceptions + [ExceptionRow(e, false)], audit := v.audit + [ExceptionLogged(e.record, e.reason)])
  }

  lemma ViewAfterTwo(v: View, a: Write, b: Write)
    ensures ApplyAllView(v, [a, b]) == ApplyView(ApplyView(v, a), b)
  {
    assert [a, b][..1] == [a] && [a][..0] == [];
    assert ApplyAllView(v, [a]) == ApplyView(v, a);
  }

  lemma ViewAfterThree(v: View, a: Write, b: Write, c: Write)
    ensures ApplyAllView(v, [a, b, c]) == ApplyView(ApplyView(ApplyView(v, a), b), c)
  {
    assert [a, b, c][..2] == [a, b];
    ViewAfterTwo(v, a, b);
  }

  /** What the tables say after the writes for one payment. */
  lemma PaymentWritesView(v: View, r: PaymentRow, lines: seq<SettlementLine>, rank: Ranker)
    requires r.capturedAt.Some?
    ensures var record, w := PaymentRecord(r.id), ApplyAllView(v, PaymentWrites(Settling(r), lines, rank));
      var exact, near := Unique(Filter(lines, SettlesFor(r))), Unique(Filter(lines, NearlySettlesFor(r)));
      && (exact.Some? ==>
            w == Matched(v, MatchRow(record, Exact, Tier1Exact, ExpectedNet(r.amount - r.fee - r.tax)),
                         MatchResultWritten(record, Exact, Tier1Exact)))
      && (exact.None? && near.Some? ==>
            w == Matched(v, MatchRow(record, High, Tier2BoundedId, DistanceLte(2)),
                         MatchResultWritten(record, High, Tier2BoundedId)))
      && (exact.None? && near.None? ==> w == Logged(v, ClassifyAfterTier2(Settling(r), lines, rank)))
  {
    var p := Settling(r);
    forall l ensures ExactFor(p)(l) == SettlesFor(r)(l) && BoundedFor(p)(l) == NearlySettlesFor(r)(l) {
      TierTests(r, l);
    }
    SameTest(lines, ExactFor(p), SettlesFor(r));
    SameTest(lines, BoundedFor(p), NearlySettlesFor(r));
    var ws := PaymentWrites(p, lines, rank);
    DecidedRecord(p, lines, rank);
    hide ClassifyAfterTier2;
    hide ExactFor;
    hide BoundedFor;
    hide SettlesFor;
    hide NearlySettlesFor;
    assert ws == [ws[0], ws[1]];
    ViewAfterTwo(v, ws[0], ws[1]);
    hide ApplyAllView;
  }

  /** The one visited row of a payment. */
  lemma VisitedRow(s: Store, start: int, end: int, loads: Loads, r: PaymentRow)
    requires Consistent(s) && Loaded(s, start, end, loads) && r in s.payments
    ensures Filter(loads.payments, RowOf(r.id)) ==
      if CapturedIn(r, start, end) && Outcomes(s, PaymentRecord(r.id)) == 0 then [r] else []
  {
    hide Outcomes;
    VisitedOnce(s, start, end, loads, r.id);
    FilterMembers(loads.payments, RowOf(r.id));
    FilterMembers(s.payments, UnmatchedIn(s, start, end));
    var visits := Filter(loads.payments, RowOf(r.id));
    if visits != [] {
      var x := visits[0];
      assert x in visits && x in multiset(loads.payments) && x in Filter(s.payments, UnmatchedIn(s, start, end));
      assert UnmatchedIn(s, start, end)(x);
      SamePayment(s, r, x);
    }
  }

  lemma SamePayment(s: Store, r: PaymentRow, x: PaymentRow)
    requires Consistent(s) && r in s.payments && x in s.payments && r.id == x.id
    ensures r == x
  {
    var i :| 0 <= i < |s.payments| && s.payments[i] == r;
    var j :| 0 <= j < |s.payments| && s.payments[j] == x;
  }

  /** What a complete run leaves about a payment. One captured in [start, end) that had no match and no open exception:
      an exact match and its audit entry if exactly one candidate settles it, otherwise a bounded one if exactly one
      nearly does, otherwise an open exception over its whole amount. Any other: nothing new. */
  lemma PaymentAfterRun(s: Store, start: int, end: int, loads: Loads, rank: Ranker, r: PaymentRow)
    requires Consistent(s) && Loaded(s, start, end, loads) && r in s.payments
    ensures var record, lines := PaymentRecord(r.id), loads.lines(r.paymentMethod);
      var v, w := ViewOf(s, record), ViewOf(ApplyAll(s, Plan(loads, rank)), record);
      var exact, near := Unique(Filter(lines, SettlesFor(r))), Unique(Filter(lines, NearlySettlesFor(r)));
      if r.capturedAt.None? || !(start <= r.capturedAt.value < end) || Outcomes(s, record) > 0 then w == v
      else if exact.Some? then
        w == Matched(v, MatchRow(record, Exact, Tier1Exact, ExpectedNet(r.amount - r.fee - r.tax)),
                     MatchResultWritten(record, Exact, Tier1Exact))
      else if near.Some? then
        w == Matched(v, MatchRow(record, High, Tier2BoundedId, DistanceLte(2)),
                     MatchResultWritten(record, High, Tier2BoundedId))
      else w == Logged(v, ClassifyAfterTier2(Settling(r), lines, rank))
  {
    hide *;
    var record, lines := PaymentRecord(r.id), loads.lines(r.paymentMethod);
    var v := ViewOf(s, record);
    RunView(s, loads, rank, record);
    DecidedForPayment(s, start, end, loads, rank, r);
    NoWrites(v);
    if r.capturedAt.Some? { PaymentWritesView(v, r, lines, rank); }
  }

  lemma NoWrites(v: View)
    ensures ApplyAllView(v, []) == v
  {
  }

  lemma NoLedger(loads: Loads, id: string)
    ensures Filter(loads.ledgers, IsLedger(PaymentRecord(id))) == []
  {
    FilterNone(loads.ledgers, IsLedger(PaymentRecord(id)));
  }

  lemma NoPayment(loads: Loads, id: nat)
    ensures Filter(loads.payments, IsPayment(LedgerRecord(id))) == []
  {
    FilterNone(loads.payments, IsPayment(LedgerRecord(id)));
  }

  lemma FlatNone<T, U>(f: T -> seq<U>)
    ensures Flat([], f) == []
  {
  }

  lemma DecidedForPayment(s: Store, start: int, end: int, loads: Loads, rank: Ranker, r: PaymentRow)
    requires Consistent(s) && Loaded(s, start, end, loads) && r in s.payments
    ensures DecidedFor(loads, rank, PaymentRecord(r.id)) ==
      if r.capturedAt.Some? && start <= r.capturedAt.value < end && Outcomes(s, PaymentRecord(r.id)) == 0
      then PaymentWrites(Settling(r), loads.lines(r.paymentMethod), rank) else []
  {
    hide *;
    var record, step := PaymentRecord(r.id), PaymentStep(loads.lines, rank);
    CapturedInWindow(r, start, end);
    VisitedRow(s, start, end, loads, r);
    DecidedParts(loads, rank, record);
    SamePaymentTest(loads.payments, r.id);
    NoLedger(loads, r.id);
    FlatOne(r, step);
    FlatNone(step);
    FlatNone(LedgerStep(loads.ledgerPayments));
    PaymentStepIs(loads.lines, rank, r);
  }

  lemma CapturedInWindow(r: PaymentRow, start: int, end: int)
    ensures CapturedIn(r, start, end) <==> r.capturedAt.Some? && start <= r.capturedAt.value < end
  {
  }

  lemma DecidedParts(loads: Loads, rank: Ranker, record: Record)
    ensures DecidedFor(loads, rank, record) ==
      Flat(Filter(loads.payments, IsPayment(record)), PaymentStep(loads.lines, rank)) +
      Flat(Filter(loads.ledgers, IsLedger(record)), LedgerStep(loads.ledgerPayments))
  {
  }

  lemma SamePaymentTest(rows: seq<PaymentRow>, id: string)
    ensures Filter(rows, IsPayment(PaymentRecord(id))) == Filter(rows, RowOf(id))
  {
    SameTest(rows, IsPayment(PaymentRecord(id)), RowOf(id));
  }

  lemma SameLedgerTest(rows: seq<LedgerRow>, id: nat)
    ensures Filter(rows, IsLedger(LedgerRecord(id))) == Filter(rows, LedgerRowOf(id))
  {
    SameTest(rows, IsLedger(LedgerRecord(id)), LedgerRowOf(id));
  }

  lemma PaymentStepIs(lines: string -> seq<SettlementLine>, rank: Ranker, r: PaymentRow)
    ensures PaymentStep(lines, rank)(r) == PaymentWrites(Settling(r), lines(r.paymentMethod), rank)
  {
    hide PaymentWrites;
  }

  lemma LedgerStepIs(payments: seq<PaymentRow>, l: LedgerRow)
    ensures LedgerStep(payments)(l) == LedgerWrites(ToLedgerLine(l), Map(payments, AsPayment()))
  {
    hide LedgerWrites;
  }

  lemma DecidedForLedger(s: Store, start: int, end: int, loads: Loads, rank: Ranker, l: LedgerRow)
    requires DistinctKeys(s) && Loaded(s, start, end, loads) && l in s.ledgers
    ensures DecidedFor(loads, rank, LedgerRecord(l.id)) ==
      if l.matched.None? && start - 2 * LAG <= l.bookedAt < end + 2 * LAG
      then LedgerWrites(ToLedgerLine(l), Map(loads.ledgerPayments, AsPayment())) else []
  {
    hide *;
    var record, step := LedgerRecord(l.id), LedgerStep(loads.ledgerPayments);
    VisitedLedger(s, start, end, loads, l);
    DecidedParts(loads, rank, record);
    SameLedgerTest(loads.ledgers, l.id);
    NoPayment(loads, l.id);
    FlatOne(l, step);
    FlatNone(step);
    FlatNone(PaymentStep(loads.lines, rank));
    LedgerStepIs(loads.ledgerPayments, l);
  }

  /** The exception logged for a payment: its whole amount is at risk. Without a ranking it is ambiguous with the number
      of candidates that fit amount and window, if more than one does, without candidate if none was offered, and
      otherwise a mismatch with the net amount expected. */
  lemma LoggedException(r: PaymentRow, lines: seq<SettlementLine>, rank: Ranker)
    requires r.capturedAt.Some?
    ensures var e, fitting := ClassifyAfterTier2(Settling(r), lines, rank), |Filter(lines, FitsFor(r))|;
      && e.record == PaymentRecord(r.id)
      && e.amountAtRisk == r.amount
      && (Ranks(Settling(r), lines, rank) ==>
            e.reason == Ambiguous &&
            e.evidence == RankedCandidates(r.amount - r.fee - r.tax, rank(Settling(r), lines).value))
      && (!Ranks(Settling(r), lines, rank) ==>
            if fitting > 1 then e.reason == Ambiguous && e.evidence == CandidateCount(fitting)
            else if lines == [] then e.reason == NoCandidate && e.evidence == Nothing
            else e.reason == AmountMismatch && e.evidence == ExpectedNet(r.amount - r.fee - r.tax))
  {
    var p := Settling(r);
    forall l ensures PlausibleFor(p)(l) == FitsFor(r)(l) { TierTests(r, l); }
    SameTest(lines, PlausibleFor(p), FitsFor(r));
    hide PlausibleFor;
    hide FitsFor;
    hide Filter;
  }

  // ---------------------------------------------------------------- ledger lines

  /** The payment was captured within three days of the booking and has the line's reference. */
  predicate Refers(l: LedgerRow, r: PaymentRow)
  {
    r.capturedAt.Some? && l.reference == r.orderId && WithinDays(l.bookedAt, r.capturedAt.value, 3)
  }

  function RefersFor(l: LedgerRow): PaymentRow -> bool { (r: PaymentRow) => Refers(l, r) }

  /** And the same gross amount. */
  function BooksFor(l: LedgerRow): PaymentRow -> bool { (r: PaymentRow) => Refers(l, r) && l.amount == r.amount }

  lemma LedgerTests(l: LedgerRow, rows: seq<PaymentRow>)
    requires forall r :: r in rows ==> r.capturedAt.Some?
    ensures Filter(Map(rows, AsPayment()), GrossFor(ToLedgerLine(l))) == Map(Filter(rows, BooksFor(l)), AsPayment())
    ensures Filter(Map(rows, AsPayment()), ReferencedFor(ToLedgerLine(l))) ==
      Map(Filter(rows, RefersFor(l)), AsPayment())
  {
    hide WithinDays;
    FilterMap(rows, AsPayment(), GrossFor(ToLedgerLine(l)), BooksFor(l));
    FilterMap(rows, AsPayment(), ReferencedFor(ToLedgerLine(l)), RefersFor(l));
  }

  /** What the tables say after the writes for one ledger line. */
  lemma LedgerWritesView(v: View, l: LedgerRow, rows: seq<PaymentRow>)
    requires (forall r :: r in rows ==> r.capturedAt.Some?) && v.ledgers == [l] && l.matched.None?
    ensures var record, w := LedgerRecord(l.id), ApplyAllView(v, LedgerWrites(ToLedgerLine(l), Map(rows, AsPayment())));
      var booked, refers := Filter(rows, BooksFor(l)), Filter(rows, RefersFor(l));
      if |booked| == 1 then
        w == Matched(v.(ledgers := [l.(matched := Some(booked[0].id))]),
                     MatchRow(record, Exact, TierLGrossExact, Gross(l.amount)),
                     LedgerMatchWritten(record, booked[0].id, TierLGrossExact))
      else w == Logged(v, if refers == [] then Exception(record, LedgerOrphan, l.amount, Nothing)
                          else Exception(record, LedgerAmountMismatch, l.amount,
                                         LedgerCandidate(refers[0].id, refers[0].amount)))
  {
    LedgerTests(l, rows);
    if |Filter(rows, BooksFor(l))| == 1 { BookedView(v, l, rows); } else { UnbookedView(v, l, rows); }
    hide *;
  }

  lemma BookedView(v: View, l: LedgerRow, rows: seq<PaymentRow>)
    requires (forall r :: r in rows ==> r.capturedAt.Some?) && v.ledgers == [l] && l.matched.None?
    requires |Filter(rows, BooksFor(l))| == 1
    ensures var record, booked := LedgerRecord(l.id), Filter(rows, BooksFor(l));
      ApplyAllView(v, LedgerWrites(ToLedgerLine(l), Map(rows, AsPayment()))) ==
        Matched(v.(ledgers := [l.(matched := Some(booked[0].id))]),
                MatchRow(record, Exact, TierLGrossExact, Gross(l.amount)),
                LedgerMatchWritten(record, booked[0].id, TierLGrossExact))
  {
    BookedWrites(l, rows);
    hide LedgerWrites;
    hide Filter;
    hide BooksFor;
    var record, id := LedgerRecord(l.id), Filter(rows, BooksFor(l))[0].id;
    ViewAfterThree(v, InsertMatch(MatchRow(record, Exact, TierLGrossExact, Gross(l.amount))), SetMatched(l.id, id),
                   AppendAudit(LedgerMatchWritten(record, id, TierLGrossExact)));
    hide ApplyAllView;
    assert Map([l], PointLedger(l.id, id)) == [l.(matched := Some(id))];
  }

  lemma BookedWrites(l: LedgerRow, rows: seq<PaymentRow>)
    requires (forall r :: r in rows ==> r.capturedAt.Some?) && |Filter(rows, BooksFor(l))| == 1
    ensures var record, id := LedgerRecord(l.id), Filter(rows, BooksFor(l))[0].id;
      LedgerWrites(ToLedgerLine(l), Map(rows, AsPayment())) ==
        [InsertMatch(MatchRow(record, Exact, TierLGrossExact, Gross(l.amount))), SetMatched(l.id, id),
         AppendAudit(LedgerMatchWritten(record, id, TierLGrossExact))]
  {
    LedgerTests(l, rows);
    hide Filter;
    hide GrossFor;
    hide BooksFor;
    hide ReferencedFor;
    hide LedgerException;
  }

  lemma UnbookedView(v: View, l: LedgerRow, rows: seq<PaymentRow>)
    requires (forall r :: r in rows ==> r.capturedAt.Some?) && |Filter(rows, BooksFor(l))| != 1
    ensures ApplyAllView(v, LedgerWrites(ToLedgerLine(l), Map(rows, AsPayment()))) ==
      Logged(v, UnbookedException(l, rows))
  {
    UnbookedWrites(l, rows);
    hide *;
    var e := UnbookedException(l, rows);
    ViewAfterTwo(v, InsertException(e), AppendAudit(ExceptionLogged(e.record, e.reason)));
    LoggedIs(v, e);
  }

  function UnbookedException(l: LedgerRow, rows: seq<PaymentRow>): Exception
  {
    var record, refers := LedgerRecord(l.id), Filter(rows, RefersFor(l));
    if refers == [] then Exception(record, LedgerOrphan, l.amount, Nothing)
    else Exception(record, LedgerAmountMismatch, l.amount, LedgerCandidate(refers[0].id, refers[0].amount))
  }

  lemma LoggedIs(v: View, e: Exception)
    ensures Logged(v, e) ==
      ApplyView(ApplyView(v, InsertException(e)), AppendAudit(ExceptionLogged(e.record, e.reason)))
  {
  }

  lemma UnbookedWrites(l: LedgerRow, rows: seq<PaymentRow>)
    requires (forall r :: r in rows ==> r.capturedAt.Some?) && |Filter(rows, BooksFor(l))| != 1
    ensures var e := UnbookedException(l, rows);
      LedgerWrites(ToLedgerLine(l), Map(rows, AsPayment())) ==
        [InsertException(e), AppendAudit(ExceptionLogged(e.record, e.reason))]
  {
    LedgerTests(l, rows);
    hide Filter;
    hide GrossFor;
    hide BooksFor;
    hide ReferencedFor;
    hide RefersFor;
  }

  lemma LoadedPaymentsAreCaptured(s: Store, start: int, end: int, loads: Loads)
    requires Loaded(s, start, end, loads)
    ensures forall r :: r in loads.ledgerPayments ==> r.capturedAt.Some?
  {
    FilterMembers(s.payments, InWindow(start - LAG, end + LAG));
    forall r | r in loads.ledgerPayments ensures r.capturedAt.Some? {
      assert r in multiset(loads.ledgerPayments);
      assert r in Filter(s.payments, InWindow(start - LAG, end + LAG));
    }
  }

  /** The one visited row of a ledger line. */
  lemma VisitedLedger(s: Store, start: int, end: int, loads: Loads, l: LedgerRow)
    requires DistinctKeys(s) && Loaded(s, start, end, loads) && l in s.ledgers
    ensures Filter(loads.ledgers, LedgerRowOf(l.id)) ==
      if l.matched.None? && start - 2 * LAG <= l.bookedAt < end + 2 * LAG then [l] else []
    ensures Filter(s.ledgers, LedgerOf(LedgerRecord(l.id))) == [l]
  {
    LedgerVisited(s, start, end, loads, l);
    FilterMembers(loads.ledgers, LedgerRowOf(l.id));
    FilterMembers(s.ledgers, UnmatchedLedgerIn(start - 2 * LAG, end + 2 * LAG));
    var visits := Filter(loads.ledgers, LedgerRowOf(l.id));
    if visits != [] {
      var x := visits[0];
      assert x in visits && x in multiset(loads.ledgers);
      assert x in Filter(s.ledgers, UnmatchedLedgerIn(start - 2 * LAG, end + 2 * LAG));
      SameLedger(s, l, x);
    }
    OneLedger(s, l);
  }

  lemma OneLedger(s: Store, l: LedgerRow)
    requires DistinctKeys(s) && l in s.ledgers
    ensures Filter(s.ledgers, LedgerOf(LedgerRecord(l.id))) == [l]
  {
    var p := LedgerOf(LedgerRecord(l.id));
    var i :| 0 <= i < |s.ledgers| && s.ledgers[i] == l;
    assert OnlyAt(s.ledgers, p, i);
    OnlyAtIsUnique(s.ledgers, p, i);
  }

  /** What a complete run leaves about a ledger line. An unmatched one booked in the range: if exactly one loaded
      payment has its reference and amount within three days, the line points at that payment and has a match row and
      an audit entry; otherwise an open exception, a mismatch that names the first payment it refers to or an orphan.
      Any other: nothing new. */
  lemma LedgerAfterRun(s: Store, start: int, end: int, loads: Loads, rank: Ranker, l: LedgerRow)
    requires DistinctKeys(s) && Loaded(s, start, end, loads) && l in s.ledgers
    ensures var record := LedgerRecord(l.id);
      var v, w := ViewOf(s, record), ViewOf(ApplyAll(s, Plan(loads, rank)), record);
      var booked, refers := Filter(loads.ledgerPayments, BooksFor(l)), Filter(loads.ledgerPayments, RefersFor(l));
      if l.matched.Some? || !(start - 2 * LAG <= l.bookedAt < end + 2 * LAG) then w == v
      else if |booked| == 1 then
        w == Matched(v.(ledgers := [l.(matched := Some(booked[0].id))]),
                     MatchRow(record, Exact, TierLGrossExact, Gross(l.amount)),
                     LedgerMatchWritten(record, booked[0].id, TierLGrossExact))
      else w == Logged(v, if refers == [] then Exception(record, LedgerOrphan, l.amount, Nothing)
                          else Exception(record, LedgerAmountMismatch, l.amount,
                                         LedgerCandidate(refers[0].id, refers[0].amount)))
  {
    VisitedLedger(s, start, end, loads, l);
    var record := LedgerRecord(l.id);
    var v := ViewOf(s, record);
    assert v.ledgers == [l];
    hide *;
    RunView(s, loads, rank, record);
    DecidedForLedger(s, start, end, loads, rank, l);
    NoWrites(v);
    LoadedPaymentsAreCaptured(s, start, end, loads);
    if l.matched.None? { LedgerWritesView(v, l, loads.ledgerPayments); }
  }

  /** A line that a run matched is not loaded by any later run. */
  lemma MatchedLineIsNotLoaded(t: Store, start: int, end: int, again: Loads, l: LedgerRow)
    requires Loaded(t, start, end, again) && l in again.ledgers
    ensures l in t.ledgers && l.matched.None?
  {
    FilterMembers(t.ledgers, UnmatchedLedgerIn(start - 2 * LAG, end + 2 * LAG));
    assert l in multiset(again.ledgers);
    assert l in Filter(t.ledgers, UnmatchedLedgerIn(start - 2 * LAG, end + 2 * LAG));
  }
}
