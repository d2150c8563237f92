/** The tables the matching engine reads and writes, the store's candidate queries
    (internal/store/mysql.go), and what the time windows of those queries leave out. */
module Tables {
  import opened Sequences
  import opened Recon

  datatype PaymentRow = PaymentRow(id: string, orderId: string, amount: int, fee: int, tax: int, paymentMethod: string,
                                   capturedAt: Option<int>)

  datatype LedgerRow = LedgerRow(id: nat, reference: string, amount: int, bookedAt: int, matched: Option<string>)

  datatype MatchRow = MatchRow(record: Record, confidence: Confidence, rule: Rule, evidence: Evidence)

  datatype ExceptionRow = ExceptionRow(exception: Exception, resolved: bool)

  datatype AuditEvent = MatchResultWritten(record: Record, confidence: Confidence, rule: Rule)
                      | LedgerMatchWritten(record: Record, paymentId: string, rule: Rule)
                      | ExceptionLogged(record: Record, reason: Reason)

  datatype Store = Store(payments: seq<PaymentRow>, lines: seq<SettlementLine>, ledgers: seq<LedgerRow>,
                         matches: seq<MatchRow>, exceptions: seq<ExceptionRow>, audit: seq<AuditEvent>)

  const LAG: int := 3 * DAY

  function SlaFor(paymentMethod: string): int
  {
    if paymentMethod == "card" then 4 * DAY
    else if paymentMethod == "netbanking" then 3 * DAY
    else if paymentMethod == "upi" then 1 * DAY
    else if paymentMethod == "wallet" then 2 * DAY
    else 5 * DAY
  }

  /** Settlement is awaited for four days after a card payment, three after netbanking, two after a wallet payment, one
      after a UPI payment and five after anything else. */
  lemma SettlementDays(paymentMethod: string)
    ensures SlaFor(paymentMethod) % (24 * 3600 * 1_000_000_000) == 0
    ensures var days := SlaFor(paymentMethod) / (24 * 3600 * 1_000_000_000);
      && 1 <= days <= 5
      && (days == 4 <==> paymentMethod == "card")
      && (days == 3 <==> paymentMethod == "netbanking")
      && (days == 2 <==> paymentMethod == "wallet")
      && (days == 1 <==> paymentMethod == "upi")
  {
  }

  /** toReconPayment. */
  function ToPayment(r: PaymentRow, sla: int): Payment
  {
    var capturedAt := if r.capturedAt.Some? then r.capturedAt.value else 0;
    Payment(r.id, r.orderId, r.amount, r.fee, r.tax, r.paymentMethod, capturedAt, sla)
  }

  function Settling(r: PaymentRow): Payment { ToPayment(r, SlaFor(r.paymentMethod)) }

  function ToLedgerLine(r: LedgerRow): LedgerLine { LedgerLine(r.id, r.reference, r.amount, r.bookedAt) }

  // ---------------------------------------------------------------- outcomes of a record

  function MatchOf(record: Record): MatchRow -> bool { (m: MatchRow) => m.record == record }

  function OpenExceptionOf(record: Record): ExceptionRow -> bool
  {
    (e: ExceptionRow) => e.exception.record == record && !e.resolved
  }

  /** Match rows plus open exceptions of a record. */
  function Outcomes(s: Store, record: Record): nat
  {
    |Filter(s.matches, MatchOf(record))| + |Filter(s.exceptions, OpenExceptionOf(record))|
  }

  // ---------------------------------------------------------------- queries

  predicate CapturedIn(r: PaymentRow, start: int, end: int) { r.capturedAt.Some? && start <= r.capturedAt.value < end }

  function UnmatchedIn(s: Store, start: int, end: int): PaymentRow -> bool
  {
    (r: PaymentRow) => CapturedIn(r, start, end) && Outcomes(s, PaymentRecord(r.id)) == 0
  }

  function InWindow(start: int, end: int): PaymentRow -> bool { (r: PaymentRow) => CapturedIn(r, start, end) }

  function HasCapture(): PaymentRow -> bool { (r: PaymentRow) => r.capturedAt.Some? }

  function OfMethod(paymentMethod: string): SettlementLine -> bool
  {
    (l: SettlementLine) => l.paymentMethod == paymentMethod
  }

  function CandidateIn(paymentMethod: string, start: int, end: int): SettlementLine -> bool
  {
    (l: SettlementLine) => l.paymentMethod == paymentMethod && start <= l.settledAt < end
  }

  function UnmatchedLedgerIn(start: int, end: int): LedgerRow -> bool
  {
    (r: LedgerRow) => r.matched.None? && start <= r.bookedAt < end
  }

  function Captured(): PaymentRow -> int { (r: PaymentRow) => if r.capturedAt.Some? then r.capturedAt.value else 0 }
  function Settled(): SettlementLine -> int { (l: SettlementLine) => l.settledAt }
  function Booked(): LedgerRow -> int { (r: LedgerRow) => r.bookedAt }
  function AsPayment(): PaymentRow -> Payment { (r: PaymentRow) => ToPayment(r, 0) }

  function GetUnmatchedPaymentsInWindow(s: Store, start: int, end: int): seq<PaymentRow>
  {
    SortBy(Filter(s.payments, UnmatchedIn(s, start, end)), Captured())
  }

  function GetPaymentsInWindow(s: Store, start: int, end: int): seq<PaymentRow>
  {
    SortBy(Filter(s.payments, InWindow(start, end)), Captured())
  }

  function GetSettlementCandidates(s: Store, paymentMethod: string, start: int, end: int): seq<SettlementLine>
  {
    SortBy(Filter(s.lines, CandidateIn(paymentMethod, start, end)), Settled())
  }

  function GetUnmatchedLedgerLines(s: Store, start: int, end: int): seq<LedgerRow>
  {
    SortBy(Filter(s.ledgers, UnmatchedLedgerIn(start, end)), Booked())
  }

  // ---------------------------------------------------------------- what the queries return

  lemma SortedRows<T>(rows: seq<T>, test: T -> bool, key: T -> int)
    ensures Ascending(SortBy(Filter(rows, test), key), key)
    ensures forall r :: r in SortBy(Filter(rows, test), key) <==> r in rows && test(r)
  {
    var kept := Filter(rows, test);
    FilterMembers(rows, test);
    SortByKeeps(kept, key);
    forall r ensures r in SortBy(kept, key) <==> r in kept {
      assert r in SortBy(kept, key) <==> r in multiset(SortBy(kept, key));
      assert r in kept <==> r in multiset(kept);
    }
  }

  /** The payments captured in [start, end), in the order of their capture; the first query only those with neither a
      match row nor an open exception. */
  lemma PaymentsReturned(s: Store, start: int, end: int, r: PaymentRow)
    ensures r in GetPaymentsInWindow(s, start, end) <==>
      r in s.payments && r.capturedAt.Some? && start <= r.capturedAt.value < end
    ensures r in GetUnmatchedPaymentsInWindow(s, start, end) <==>
      && r in s.payments && r.capturedAt.Some? && start <= r.capturedAt.value < end
      && (forall m :: m in s.matches ==> m.record != PaymentRecord(r.id))
      && (forall e :: e in s.exceptions && !e.resolved ==> e.exception.record != PaymentRecord(r.id))
    ensures Ascending(GetPaymentsInWindow(s, start, end), Captured())
    ensures Ascending(GetUnmatchedPaymentsInWindow(s, start, end), Captured())
  {
    SortedRows(s.payments, InWindow(start, end), Captured());
    SortedRows(s.payments, UnmatchedIn(s, start, end), Captured());
    NoOutcomes(s, PaymentRecord(r.id));
    hide Outcomes;
    hide Filter;
    hide SortBy;
    hide Ascending;
  }

  lemma NoOutcomes(s: Store, record: Record)
    ensures Outcomes(s, record) == 0 <==>
      && (forall m :: m in s.matches ==> m.record != record)
      && (forall e :: e in s.exceptions && !e.resolved ==> e.exception.record != record)
  {
    NothingKept(s.matches, MatchOf(record));
    NothingKept(s.exceptions, OpenExceptionOf(record));
    hide Filter;
    assert forall m :: MatchOf(record)(m) <==> m.record == record;
    assert forall e :: OpenExceptionOf(record)(e) <==> e.exception.record == record && !e.resolved;
  }

  lemma NothingKept<T>(rows: seq<T>, test: T -> bool)
    ensures |Filter(rows, test)| == 0 <==> forall r :: r in rows ==> !test(r)
  {
    FilterMembers(rows, test);
    if Filter(rows, test) != [] {
      assert Filter(rows, test)[0] in Filter(rows, test);
    }
  }

  /** The settlement lines of a method settled in [start, end), in the order of their settlement. */
  lemma CandidatesReturned(s: Store, paymentMethod: string, start: int, end: int, l: SettlementLine)
    ensures l in GetSettlementCandidates(s, paymentMethod, start, end) <==>
      l in s.lines && l.paymentMethod == paymentMethod && start <= l.settledAt < end
    ensures Ascending(GetSettlementCandidates(s, paymentMethod, start, end), Settled())
  {
    SortedRows(s.lines, CandidateIn(paymentMethod, start, end), Settled());
  }

  /** The ledger lines without a payment booked in [start, end), in the order of their booking. */
  lemma LedgersReturned(s: Store, start: int, end: int, l: LedgerRow)
    ensures l in GetUnmatchedLedgerLines(s, start, end) <==>
      l in s.ledgers && l.matched.None? && start <= l.bookedAt < end
    ensures Ascending(GetUnmatchedLedgerLines(s, start, end), Booked())
  {
    SortedRows(s.ledgers, UnmatchedLedgerIn(start, end), Booked());
  }

  // ---------------------------------------------------------------- settlement window

  /** Every line of the payment's method, whenever settled. */
  function AllLines(s: Store, paymentMethod: string): seq<SettlementLine> { Filter(s.lines, OfMethod(paymentMethod)) }

  /** A test that only accepts lines inside the payment's own SLA window sees the same lines in the
      query window as in the whole table. */
  lemma WindowKeeps(s: Store, r: PaymentRow, start: int, end: int, test: SettlementLine -> bool)
    requires CapturedIn(r, start, end)
    requires forall l :: test(l) ==> InFutureWindow(r.capturedAt.value, l.settledAt, SlaFor(r.paymentMethod))
    ensures Filter(Filter(s.lines, CandidateIn(r.paymentMethod, start, end + SlaFor(r.paymentMethod))), test)
         == Filter(AllLines(s, r.paymentMethod), test)
  {
    var m, window := r.paymentMethod, CandidateIn(r.paymentMethod, start, end + SlaFor(r.paymentMethod));
    FilterTwice(s.lines, OfMethod(m), window);
    FilterMembers(s.lines, OfMethod(m));
    FilterTwice(AllLines(s, m), window, test);
  }

  /** Tier 1, Tier 2 and the ambiguous verdict on the lines settled in [start, end + sla) are those on
      every line of the method, in whatever order the query returns them. */
  lemma SettlementWindow(s: Store, r: PaymentRow, start: int, end: int, loaded: seq<SettlementLine>)
    requires CapturedIn(r, start, end)
    requires multiset(loaded) ==
      multiset(Filter(s.lines, CandidateIn(r.paymentMethod, start, end + SlaFor(r.paymentMethod))))
    ensures DeterministicMatch(Settling(r), loaded) == DeterministicMatch(Settling(r), AllLines(s, r.paymentMethod))
    ensures ClaimedLine(Settling(r), loaded) == ClaimedLine(Settling(r), AllLines(s, r.paymentMethod))
    ensures PaymentException(Settling(r), loaded).reason == Ambiguous
        <==> PaymentException(Settling(r), AllLines(s, r.paymentMethod)).reason == Ambiguous
  {
    var p, windowed := Settling(r), Filter(s.lines, CandidateIn(r.paymentMethod, start, end + SlaFor(r.paymentMethod)));
    PaymentOrderIndependent(p, loaded, windowed);
    WindowKeeps(s, r, start, end, ExactFor(p));
    WindowKeeps(s, r, start, end, BoundedFor(p));
    WindowKeeps(s, r, start, end, PlausibleFor(p));
  }

  /** The reason on the loaded lines is the reason on all lines of the method exactly when two loaded lines fit
      amount and window, or the window holds a line whenever the table does. */
  lemma ReasonAgreesIff(s: Store, r: PaymentRow, start: int, end: int, loaded: seq<SettlementLine>)
    requires CapturedIn(r, start, end)
    requires multiset(loaded) ==
      multiset(Filter(s.lines, CandidateIn(r.paymentMethod, start, end + SlaFor(r.paymentMethod))))
    ensures var p, all := Settling(r), AllLines(s, r.paymentMethod);
      (PaymentException(p, loaded).reason == PaymentException(p, all).reason) <==>
      (TwoPlausible(p, loaded) || (loaded == [] <==> all == []))
  {
    SettlementWindow(s, r, start, end, loaded);
    MoreThanOneIff(loaded, PlausibleFor(Settling(r)));
  }

  /** The reasons NO_CANDIDATE and AMOUNT_MISMATCH do depend on the window: a line settled outside it counts
      as a candidate in the whole table only. */
  lemma ReasonDependsOnWindow() returns (s: Store, r: PaymentRow, start: int, end: int)
    ensures CapturedIn(r, start, end)
    ensures var loaded := Filter(s.lines, CandidateIn(r.paymentMethod, start, end + SlaFor(r.paymentMethod)));
      && PaymentException(Settling(r), loaded).reason == NoCandidate
      && PaymentException(Settling(r), AllLines(s, r.paymentMethod)).reason == AmountMismatch
  {
    var line := SettlementLine(1, "x", 7, "upi", 100 * DAY);
    start, end := 0, 1;
    r := PaymentRow("p", "", 5, 0, 0, "upi", Some(0));
    s := Store([r], [line], [], [], [], []);
    FilterOne(line, OfMethod("upi"));
    FilterNone([line], CandidateIn("upi", start, end + SlaFor("upi")));
    FilterNone([line], PlausibleFor(Settling(r)));
    FilterNone([], PlausibleFor(Settling(r)));
  }

  // ---------------------------------------------------------------- ledger windows

  /** Every captured payment of the table, as Tier L sees it. */
  function AllPayments(s: Store): seq<Payment> { Map(Filter(s.payments, HasCapture()), AsPayment()) }

  /** The saturated time difference is not hit (see WithinDaysExact). */
  predicate NoOverflow(s: Store, bookedAt: int)
  {
    forall i :: 0 <= i < |s.payments| && s.payments[i].capturedAt.Some? ==>
      bookedAt - s.payments[i].capturedAt.value > MIN_DURATION
  }

  /** An unmatched ledger line that Tier L accepts as within three days of a loaded payment is itself loaded, unless
      the time difference saturates; then, in any window shorter than that, it is not. */
  lemma LedgerLineIsLoaded(s: Store, start: int, end: int, p: PaymentRow, l: LedgerRow)
    requires CapturedIn(p, start - LAG, end + LAG) && l in s.ledgers && l.matched.None?
    requires WithinDays(l.bookedAt, p.capturedAt.value, 3)
    ensures var loaded := GetUnmatchedLedgerLines(s, start - 2 * LAG, end + 2 * LAG);
      var apart := l.bookedAt - p.capturedAt.value;
      && (apart > MIN_DURATION ==> l in loaded)
      && (end - start + 3 * LAG <= -MIN_DURATION ==> (l in loaded <==> apart > MIN_DURATION))
  {
    WithinDaysExact(l.bookedAt, p.capturedAt.value, 3);
    LedgersReturned(s, start - 2 * LAG, end + 2 * LAG, l);
    hide WithinDays;
    hide GetUnmatchedLedgerLines;
  }

  lemma NearIsInWindow(s: Store, start: int, end: int, bookedAt: int, r: PaymentRow)
    requires start <= bookedAt < end && NoOverflow(s, bookedAt)
    requires r in s.payments && r.capturedAt.Some? && WithinDays(bookedAt, r.capturedAt.value, 3)
    ensures CapturedIn(r, start - LAG, end + LAG)
  {
    WithinDaysExact(bookedAt, r.capturedAt.value, 3);
    var i :| 0 <= i < |s.payments| && s.payments[i] == r;
  }

  /** A test that only accepts payments within three days sees, for a line booked in [start, end), the same
      payments in the query window as in the whole table. */
  lemma LedgerWindowKeeps(s: Store, start: int, end: int, bookedAt: int, test: Payment -> bool)
    requires start <= bookedAt < end && NoOverflow(s, bookedAt)
    requires forall p :: test(p) ==> WithinDays(bookedAt, p.capturedAt, 3)
    ensures Filter(Map(Filter(s.payments, InWindow(start - LAG, end + LAG)), AsPayment()), test) ==
      Filter(AllPayments(s), test)
  {
    hide WithinDays;
    hide Filter;
    hide Map;
    var window, q := InWindow(start - LAG, end + LAG), (r: PaymentRow) => test(ToPayment(r, 0));
    var captured := Filter(s.payments, HasCapture());
    FilterMap(captured, AsPayment(), test, q);
    FilterMap(Filter(s.payments, window), AsPayment(), test, q);
    FilterTwice(s.payments, HasCapture(), window);
    FilterMembers(s.payments, HasCapture());
    forall r | r in captured && q(r) ensures window(r) {
      assert HasCapture()(r) && test(ToPayment(r, 0));
      NearIsInWindow(s, start, end, bookedAt, r);
    }
    FilterTwice(captured, window, q);
  }

  function Inside(start: int, end: int): Payment -> bool { (p: Payment) => start <= p.capturedAt < end }

  function Outside(start: int, end: int): Payment -> bool { (p: Payment) => !(start <= p.capturedAt < end) }

  /** The loaded payments, among all of them. */
  lemma WindowOfAll(s: Store, start: int, end: int)
    ensures Map(Filter(s.payments, InWindow(start, end)), AsPayment()) == Filter(AllPayments(s), Inside(start, end))
  {
    hide Filter;
    hide Map;
    FilterMembers(s.payments, HasCapture());
    FilterMap(Filter(s.payments, HasCapture()), AsPayment(), Inside(start, end), InWindow(start, end));
    FilterTwice(s.payments, HasCapture(), InWindow(start, end));
  }

  lemma UniqueInPartIff<T>(s: seq<T>, p: T -> bool, notP: T -> bool, q: T -> bool)
    requires forall x :: x in s ==> notP(x) == !p(x)
    ensures var inside, strays := |Filter(Filter(s, p), q)|, |Filter(Filter(s, notP), q)|;
      (Unique(Filter(Filter(s, p), q)) == Unique(Filter(s, q))) <==>
      (strays == 0 || inside >= 2 || (inside == 0 && strays >= 2))
  {
    FilterSplit(s, p, notP, q);
    if |Filter(Filter(s, notP), q)| == 0 {
      FilterMembers(s, notP);
      FilterMembers(Filter(s, notP), q);
      FilterTwice(s, p, q);
    }
    hide Filter;
  }

  /** When Tier L over the loaded payments is Tier L over the whole table, for any ledger line: `strays` are the
      payments outside the window that pass its test. */
  lemma LedgerWindowIff(s: Store, start: int, end: int, l: LedgerLine, loaded: seq<PaymentRow>)
    requires multiset(loaded) == multiset(Filter(s.payments, InWindow(start - LAG, end + LAG)))
    ensures var all := AllPayments(s);
      var inWindow, outside := Inside(start - LAG, end + LAG), Outside(start - LAG, end + LAG);
      var inside, strays := |Filter(Filter(all, inWindow), GrossFor(l))|, |Filter(Filter(all, outside), GrossFor(l))|;
      (TierLPayment(l, Map(loaded, AsPayment())) == TierLPayment(l, all)) <==>
      (strays == 0 || inside >= 2 || (inside == 0 && strays >= 2))
    ensures var all := AllPayments(s);
      var inWindow, outside := Inside(start - LAG, end + LAG), Outside(start - LAG, end + LAG);
      (LedgerException(l, Map(loaded, AsPayment())).reason == LedgerException(l, all).reason) <==>
      (Filter(Filter(all, outside), ReferencedFor(l)) == [] || Filter(Filter(all, inWindow), ReferencedFor(l)) != [])
  {
    var all, inWindow, outside := AllPayments(s), Inside(start - LAG, end + LAG), Outside(start - LAG, end + LAG);
    var windowed := Filter(s.payments, InWindow(start - LAG, end + LAG));
    MapPermuted(loaded, windowed, AsPayment());
    LedgerOrderIndependent(l, Map(loaded, AsPayment()), Map(windowed, AsPayment()));
    WindowOfAll(s, start - LAG, end + LAG);
    UniqueInPartIff(all, inWindow, outside, GrossFor(l));
    FilterSplit(all, inWindow, outside, ReferencedFor(l));
    hide Filter;
    hide Map;
    hide AllPayments;
    hide GrossFor;
    hide ReferencedFor;
  }

  /** For a line booked in [start, end) such a stray exists only by saturation. */
  lemma StrayIsSaturated(start: int, end: int, bookedAt: int, p: Payment)
    requires start <= bookedAt < end && Outside(start - LAG, end + LAG)(p)
    ensures WithinDays(bookedAt, p.capturedAt, 3) <==> bookedAt - p.capturedAt <= MIN_DURATION
  {
    WithinDaysExact(bookedAt, p.capturedAt, 3);
  }

  /** For lines booked in [start, end), Tier L over the loaded payments is Tier L over the whole table, or some captured
      payment is so late that the time difference saturates. */
  lemma LedgerWindow(s: Store, start: int, end: int, l: LedgerLine, loaded: seq<PaymentRow>)
    requires start <= l.bookedAt < end
    requires multiset(loaded) == multiset(Filter(s.payments, InWindow(start - LAG, end + LAG)))
    ensures !NoOverflow(s, l.bookedAt) || SameVerdict(l, Map(loaded, AsPayment()), AllPayments(s))
  {
    if NoOverflow(s, l.bookedAt) { LedgerWindowHolds(s, start, end, l, loaded); }
  }

  /** Tier L and its classifier, evidence aside, say the same of the line over both lists of payments. */
  predicate SameVerdict(l: LedgerLine, some: seq<Payment>, others: seq<Payment>)
  {
    && TierLPayment(l, some) == TierLPayment(l, others)
    && LedgerException(l, some).(evidence := Nothing) == LedgerException(l, others).(evidence := Nothing)
  }

  lemma LedgerWindowHolds(s: Store, start: int, end: int, l: LedgerLine, loaded: seq<PaymentRow>)
    requires start <= l.bookedAt < end && NoOverflow(s, l.bookedAt)
    requires multiset(loaded) == multiset(Filter(s.payments, InWindow(start - LAG, end + LAG)))
    ensures SameVerdict(l, Map(loaded, AsPayment()), AllPayments(s))
  {
    var windowed := Filter(s.payments, InWindow(start - LAG, end + LAG));
    MapPermuted(loaded, windowed, AsPayment());
    LedgerOrderIndependent(l, Map(loaded, AsPayment()), Map(windowed, AsPayment()));
    LedgerWindowKeeps(s, start, end, l.bookedAt, GrossFor(l));
    LedgerWindowKeeps(s, start, end, l.bookedAt, ReferencedFor(l));
  }

  function Pair(r: PaymentRow, l: LedgerRow): Store { Store([r], [], [l], [], [], []) }

  lemma PairOnWholeTable(r: PaymentRow, l: LedgerRow)
    requires r.capturedAt.Some? && GrossPayment(ToLedgerLine(l), ToPayment(r, 0))
    ensures TierLPayment(ToLedgerLine(l), AllPayments(Pair(r, l))).Some?
  {
    hide WithinDays;
    FilterOne(r, HasCapture());
    assert AllPayments(Pair(r, l)) == [ToPayment(r, 0)];
    FilterOne(ToPayment(r, 0), GrossFor(ToLedgerLine(l)));
  }

  lemma PairPaymentNotLoaded(r: PaymentRow, l: LedgerRow, start: int, end: int)
    requires !CapturedIn(r, start, end)
    ensures var loaded := Map(GetPaymentsInWindow(Pair(r, l), start, end), AsPayment());
      TierLPayment(ToLedgerLine(l), loaded).None? && LedgerException(ToLedgerLine(l), loaded).reason == LedgerOrphan
  {
    FilterOne(r, InWindow(start, end));
    assert GetPaymentsInWindow(Pair(r, l), start, end) == [];
    assert Map([], AsPayment()) == [];
  }

  lemma PairLineLoaded(r: PaymentRow, l: LedgerRow, start: int, end: int)
    requires UnmatchedLedgerIn(start, end)(l)
    ensures l in GetUnmatchedLedgerLines(Pair(r, l), start, end)
  {
    FilterOne(l, UnmatchedLedgerIn(start, end));
    SortByKeeps([l], Booked());
    assert l in multiset(SortBy([l], Booked()));
  }

  lemma ThreeDaysApart(t: int)
    ensures WithinDays(t, t - LAG, 3) && WithinDays(t, t + LAG, 3)
  {
    WithinDaysExact(t, t - LAG, 3);
    WithinDaysExact(t, t + LAG, 3);
  }

  /** That booking range is tight: for every other booking time the query loads there is a table in which the
      loaded line is called an orphan although the table holds its one payment. */
  lemma LedgerWindowIsTight(start: int, end: int, bookedAt: int) returns (s: Store, l: LedgerRow)
    requires start - 2 * LAG <= bookedAt < end + 2 * LAG && !(start <= bookedAt < end)
    ensures l.bookedAt == bookedAt && l in GetUnmatchedLedgerLines(s, start - 2 * LAG, end + 2 * LAG)
    ensures TierLPayment(ToLedgerLine(l), AllPayments(s)).Some?
    ensures var loaded := Map(GetPaymentsInWindow(s, start - LAG, end + LAG), AsPayment());
      TierLPayment(ToLedgerLine(l), loaded).None? && LedgerException(ToLedgerLine(l), loaded).reason == LedgerOrphan
  {
    ThreeDaysApart(bookedAt);
    hide *;
    var capturedAt := if bookedAt < start then bookedAt - LAG else bookedAt + LAG;
    s, l := TightPair(start, end, bookedAt, capturedAt);
  }

  /** Nor can the saturated difference be admitted: a payment captured that long after a line booked in [start, end)
      counts as within three days in the whole table, and is not loaded. */
  lemma OverflowBreaksLedgerWindow(start: int, end: int, bookedAt: int, capturedAt: int)
    returns (s: Store, l: LedgerRow)
    requires start <= bookedAt < end && bookedAt - capturedAt <= MIN_DURATION && capturedAt >= end + LAG
    ensures l.bookedAt == bookedAt && l in GetUnmatchedLedgerLines(s, start - 2 * LAG, end + 2 * LAG)
    ensures TierLPayment(ToLedgerLine(l), AllPayments(s)).Some?
    ensures TierLPayment(ToLedgerLine(l), Map(GetPaymentsInWindow(s, start - LAG, end + LAG), AsPayment())).None?
  {
    WithinDaysExact(bookedAt, capturedAt, 3);
    hide *;
    s, l := TightPair(start, end, bookedAt, capturedAt);
  }

  lemma TightRows(start: int, end: int, r: PaymentRow, l: LedgerRow)
    requires r.capturedAt.Some? && r.orderId == l.reference && r.amount == l.amount && l.matched.None?
    requires start - 2 * LAG <= l.bookedAt < end + 2 * LAG && WithinDays(l.bookedAt, r.capturedAt.value, 3)
    requires !(start - LAG <= r.capturedAt.value < end + LAG)
    ensures GrossPayment(ToLedgerLine(l), ToPayment(r, 0)) && !CapturedIn(r, start - LAG, end + LAG)
    ensures UnmatchedLedgerIn(start - 2 * LAG, end + 2 * LAG)(l)
  {
    hide WithinDays;
  }

  lemma TightPair(start: int, end: int, bookedAt: int, capturedAt: int) returns (s: Store, l: LedgerRow)
    requires start - 2 * LAG <= bookedAt < end + 2 * LAG && WithinDays(bookedAt, capturedAt, 3)
    requires !(start - LAG <= capturedAt < end + LAG)
    ensures l.bookedAt == bookedAt && l in GetUnmatchedLedgerLines(s, start - 2 * LAG, end + 2 * LAG)
    ensures TierLPayment(ToLedgerLine(l), AllPayments(s)).Some?
    ensures var loaded := Map(GetPaymentsInWindow(s, start - LAG, end + LAG), AsPayment());
      TierLPayment(ToLedgerLine(l), loaded).None? && LedgerException(ToLedgerLine(l), loaded).reason == LedgerOrphan
  {
    hide *;
    var r := PaymentRow("", "", 5, 0, 0, "", Some(capturedAt));
    l := LedgerRow(1, "", 5, bookedAt, None);
    TightRows(start, end, r, l);
    s := Pair(r, l);
    PairOnWholeTable(r, l);
    PairPaymentNotLoaded(r, l, start - LAG, end + LAG);
    PairLineLoaded(r, l, start - 2 * LAG, end + 2 * LAG);
  }
}
