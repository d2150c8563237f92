/** Domain types (internal/recon/types.go) and the deterministic tiers (internal/recon/matcher.go).
    Times and durations are integers in nanoseconds, money is an integer in paise. */
module Recon {
  import opened Sequences
  import opened EditDistance

  const DAY: int := 24 * 3600 * 1_000_000_000
  const MAX_DURATION: int := 0x7FFF_FFFF_FFFF_FFFF
  const MIN_DURATION: int := -0x8000_0000_0000_0000

  datatype Payment = Payment(id: string, orderId: string, amount: int, fee: int, tax: int, paymentMethod: string,
                             capturedAt: int, sla: int)
  {
    function NetAmount(): int { amount - fee - tax }
  }

  datatype SettlementLine = SettlementLine(id: nat, entityId: string, credit: int, paymentMethod: string,
                                           settledAt: int)

  datatype LedgerLine = LedgerLine(id: nat, reference: string, amount: int, bookedAt: int)

  datatype Confidence = Exact | High

  datatype Rule = Tier1Exact | Tier2BoundedId | TierLGrossExact

  datatype Reason = NoCandidate | Ambiguous | AmountMismatch | LedgerAmountMismatch | LedgerOrphan

  datatype Ranked = Ranked(candidateId: nat, score: real)

  datatype Evidence = Nothing | ExpectedNet(paise: int) | DistanceLte(bound: nat) | Gross(paise: int)
                    | CandidateCount(count: nat) | LedgerCandidate(paymentId: string, expectedGross: int)
                    | RankedCandidates(expectedNet: int, ranking: seq<Ranked>)

  datatype MatchResult = MatchResult(paymentId: string, candidateId: Option<nat>, ledgerLineId: Option<nat>,
                                     confidence: Confidence, rule: Rule, evidence: Evidence)

  datatype Record = PaymentRecord(paymentId: string) | LedgerRecord(ledgerId: nat)

  datatype Exception = Exception(record: Record, reason: Reason, amountAtRisk: int, evidence: Evidence)

  // ---------------------------------------------------------------- evidence tests

  predicate InFutureWindow(capturedAt: int, settledAt: int, sla: int) { capturedAt <= settledAt <= capturedAt + sla }

  /** time.Time.Sub saturates at the int64 range. */
  function Sub(left: int, right: int): int
  {
    var d := left - right;
    if d > MAX_DURATION then MAX_DURATION else if d < MIN_DURATION then MIN_DURATION else d
  }

  /** Negation of an int64: the smallest value is its own negative. */
  function Negate(d: int): int { if d == MIN_DURATION then MIN_DURATION else -d }

  predicate WithinDays(left: int, right: int, days: int)
  {
    var difference := Sub(left, right);
    var magnitude := if difference < 0 then Negate(difference) else difference;
    magnitude <= days * DAY
  }

  /** Two times are accepted exactly when they are that many days apart, or when the left one is so
      much earlier that the saturated difference survives negation. */
  lemma WithinDaysExact(left: int, right: int, days: int)
    requires 0 <= days <= 100_000
    ensures WithinDays(left, right, days) <==> -days * DAY <= left - right <= days * DAY || left - right <= MIN_DURATION
  {
    assert 0 <= days * DAY < MAX_DURATION by { assert days * DAY <= 100_000 * DAY; }
  }

  predicate Separator(c: char) { c == '-' || c == '_' || c == ' ' }

  /** ASCII letters, and the two other runes that lowering turns into ASCII letters: the Kelvin sign and the dotted
      capital I. */
  function ToLower(c: char): char
  {
    if 'A' <= c <= 'Z' then c + 32 as char
    else if c == '\U{212A}' then 'k'
    else if c == '\U{0130}' then 'i'
    else c
  }

  /** Separators removed, letters lowered. */
  function Normalize(value: string): (r: string)
    ensures SingleByte(value) ==> SingleByte(r)
  {
    if value == [] then []
    else
      var last := value[|value| - 1];
      Normalize(value[..|value| - 1]) + if Separator(last) then [] else [ToLower(last)]
  }

  // ---------------------------------------------------------------- what normalising identifies

  /** The string without '-', '_' and ' '. */
  function Squeeze(s: string): string { Filter(s, (c: char) => c != '-' && c != '_' && c != ' ') }

  /** The position in the alphabet of a letter in either case; the Kelvin sign is a K, the dotted capital I an I. */
  function LetterOf(c: char): Option<int>
  {
    if 'a' <= c <= 'z' then Some(c as int - 'a' as int)
    else if 'A' <= c <= 'Z' then Some(c as int - 'A' as int)
    else if c == '\U{212A}' then Some('k' as int - 'a' as int)
    else if c == '\U{0130}' then Some('i' as int - 'a' as int)
    else None
  }

  predicate SameLetter(c: char, d: char) { c == d || (LetterOf(c).Some? && LetterOf(c) == LetterOf(d)) }

  /** Letter by letter the same but for case. */
  predicate SameButCase(a: string, b: string)
  {
    |a| == |b| && forall i :: 0 <= i < |a| ==> SameLetter(a[i], b[i])
  }

  lemma LowerIff(c: char, d: char)
    ensures ToLower(c) == ToLower(d) <==> SameLetter(c, d)
  {
  }

  function Lower(s: string): string { Map(s, ToLower) }

  lemma {:induction false} NormalizeIsLowerSqueeze(s: string)
    ensures Normalize(s) == Lower(Squeeze(s))
  {
    if s != [] {
      var init, last := s[..|s| - 1], s[|s| - 1];
      NormalizeIsLowerSqueeze(init);
      assert Squeeze(s) == Squeeze(init) + if Separator(last) then [] else [last];
      MapAppend(Squeeze(init), if Separator(last) then [] else [last], ToLower);
      hide Squeeze;
      hide ToLower;
      assert Map([last], ToLower) == [ToLower(last)];
    }
  }

  /** Two identifiers have the same normal form exactly when, separators aside, they differ only in letter case. */
  lemma NormalizeIff(a: string, b: string)
    ensures Normalize(a) == Normalize(b) <==> SameButCase(Squeeze(a), Squeeze(b))
  {
    NormalizeIsLowerSqueeze(a);
    NormalizeIsLowerSqueeze(b);
    hide Squeeze;
    hide ToLower;
    hide SameLetter;
    var x, y := Squeeze(a), Squeeze(b);
    if |x| == |y| {
      forall i | 0 <= i < |x| ensures Lower(x)[i] == Lower(y)[i] <==> SameLetter(x[i], y[i]) { LowerIff(x[i], y[i]); }
    }
  }

  // ---------------------------------------------------------------- tier tests

  predicate ExactLine(p: Payment, l: SettlementLine)
  {
    l.entityId == p.id && l.credit == p.NetAmount() && InFutureWindow(p.capturedAt, l.settledAt, p.sla)
  }

  predicate PlausibleLine(p: Payment, l: SettlementLine)
  {
    l.credit == p.NetAmount() && InFutureWindow(p.capturedAt, l.settledAt, p.sla)
  }

  predicate BoundedLine(p: Payment, l: SettlementLine)
  {
    PlausibleLine(p, l) && LoopDistance(Normalize(p.id), Normalize(l.entityId)) <= 2
  }

  predicate GrossPayment(l: LedgerLine, p: Payment)
  {
    l.reference == p.orderId && l.amount == p.amount && WithinDays(l.bookedAt, p.capturedAt, 3)
  }

  predicate ReferencedPayment(l: LedgerLine, p: Payment)
  {
    l.reference == p.orderId && WithinDays(l.bookedAt, p.capturedAt, 3)
  }

  predicate TwoPlausible(p: Payment, lines: seq<SettlementLine>)
  {
    exists i, j :: 0 <= i < j < |lines| && PlausibleLine(p, lines[i]) && PlausibleLine(p, lines[j])
  }

  function ExactFor(p: Payment): SettlementLine -> bool { l => ExactLine(p, l) }
  function PlausibleFor(p: Payment): SettlementLine -> bool { l => PlausibleLine(p, l) }
  function BoundedFor(p: Payment): SettlementLine -> bool { l => BoundedLine(p, l) }
  function GrossFor(l: LedgerLine): Payment -> bool { p => GrossPayment(l, p) }
  function ReferencedFor(l: LedgerLine): Payment -> bool { p => ReferencedPayment(l, p) }

  // ---------------------------------------------------------------- tier results as functions

  function Tier1Line(p: Payment, lines: seq<SettlementLine>): Option<SettlementLine>
  {
    Unique(Filter(lines, ExactFor(p)))
  }
  function Tier2Line(p: Payment, lines: seq<SettlementLine>): Option<SettlementLine>
  {
    Unique(Filter(lines, BoundedFor(p)))
  }
  function TierLPayment(l: LedgerLine, payments: seq<Payment>): Option<Payment>
  {
    Unique(Filter(payments, GrossFor(l)))
  }

  function Tier1Result(p: Payment, l: SettlementLine): MatchResult
  {
    MatchResult(p.id, Some(l.id), None, Exact, Tier1Exact, ExpectedNet(p.NetAmount()))
  }

  function Tier2Result(p: Payment, l: SettlementLine): MatchResult
  {
    MatchResult(p.id, Some(l.id), None, High, Tier2BoundedId, DistanceLte(2))
  }

  function TierLResult(l: LedgerLine, p: Payment): MatchResult
  {
    MatchResult(p.id, None, Some(l.id), Exact, TierLGrossExact, Gross(l.amount))
  }

  /** The line Tier 1, then Tier 2, settles `p` with. */
  function ClaimedLine(p: Payment, lines: seq<SettlementLine>): Option<SettlementLine>
  {
    if Tier1Line(p, lines).Some? then Tier1Line(p, lines) else Tier2Line(p, lines)
  }

  /** The row Tier 1, then Tier 2, writes for `p`. */
  function DeterministicMatch(p: Payment, lines: seq<SettlementLine>): Option<MatchResult>
  {
    if Tier1Line(p, lines).Some? then Some(Tier1Result(p, Tier1Line(p, lines).value))
    else if Tier2Line(p, lines).Some? then Some(Tier2Result(p, Tier2Line(p, lines).value))
    else None
  }

  function PaymentException(p: Payment, lines: seq<SettlementLine>): Exception
  {
    var count := |Filter(lines, PlausibleFor(p))|;
    if count > 1 then Exception(PaymentRecord(p.id), Ambiguous, p.amount, CandidateCount(count))
    else if |lines| == 0 then Exception(PaymentRecord(p.id), NoCandidate, p.amount, Nothing)
    else Exception(PaymentRecord(p.id), AmountMismatch, p.amount, ExpectedNet(p.NetAmount()))
  }

  function LedgerException(l: LedgerLine, payments: seq<Payment>): Exception
  {
    var referenced := Filter(payments, ReferencedFor(l));
    if referenced == [] then Exception(LedgerRecord(l.id), LedgerOrphan, l.amount, Nothing)
    else
      var first := referenced[0];
      Exception(LedgerRecord(l.id), LedgerAmountMismatch, l.amount, LedgerCandidate(first.id, first.amount))
  }

  // ---------------------------------------------------------------- the loops

  /** Tier1.TryMatch. */
  method Tier1TryMatch(payment: Payment, candidates: seq<SettlementLine>) returns (result: Option<MatchResult>)
    ensures result.Some? <==> exists i :: OnlyAt(candidates, ExactFor(payment), i)
    ensures forall i :: OnlyAt(candidates, ExactFor(payment), i) ==> result == Some(Tier1Result(payment, candidates[i]))
    ensures result ==
      if Tier1Line(payment, candidates).Some? then Some(Tier1Result(payment, Tier1Line(payment, candidates).value))
      else None
  {
    var matches: seq<SettlementLine> := [];
    for i := 0 to |candidates|
      invariant matches == Filter(candidates[..i], ExactFor(payment))
    {
      var candidate := candidates[i];
      FilterSnoc(candidates, i, ExactFor(payment));
      if candidate.entityId != payment.id || candidate.credit != payment.NetAmount() { continue; }
      if !InFutureWindow(payment.capturedAt, candidate.settledAt, payment.sla) { continue; }
      matches := matches + [candidate];
    }
    assert candidates[..|candidates|] == candidates;
    UniqueIff(candidates, ExactFor(payment));
    if |matches| != 1 { return None; }
    result := Some(Tier1Result(payment, matches[0]));
  }

  /** Tier2.TryMatch. */
  method Tier2TryMatch(payment: Payment, candidates: seq<SettlementLine>) returns (result: Option<MatchResult>)
    ensures result.Some? <==> exists i :: OnlyAt(candidates, BoundedFor(payment), i)
    ensures forall i :: OnlyAt(candidates, BoundedFor(payment), i) ==>
      result == Some(Tier2Result(payment, candidates[i]))
    ensures result ==
      if Tier2Line(payment, candidates).Some? then Some(Tier2Result(payment, Tier2Line(payment, candidates).value))
      else None
  {
    var matches: seq<SettlementLine> := [];
    for i := 0 to |candidates|
      invariant matches == Filter(candidates[..i], BoundedFor(payment))
    {
      var candidate := candidates[i];
      FilterSnoc(candidates, i, BoundedFor(payment));
      if candidate.credit != payment.NetAmount() ||
         !InFutureWindow(payment.capturedAt, candidate.settledAt, payment.sla) {
        continue;
      }
      var distance := Levenshtein(Normalize(payment.id), Normalize(candidate.entityId));
      if distance <= 2 { matches := matches + [candidate]; }
    }
    assert candidates[..|candidates|] == candidates;
    UniqueIff(candidates, BoundedFor(payment));
    if |matches| != 1 { return None; }
    result := Some(Tier2Result(payment, matches[0]));
  }

  /** TierL.TryExactMatch. */
  method TierLTryExactMatch(ledger: LedgerLine, payments: seq<Payment>) returns (result: Option<MatchResult>)
    ensures result.Some? <==> exists i :: OnlyAt(payments, GrossFor(ledger), i)
    ensures forall i :: OnlyAt(payments, GrossFor(ledger), i) ==> result == Some(TierLResult(ledger, payments[i]))
    ensures result ==
      if TierLPayment(ledger, payments).Some? then Some(TierLResult(ledger, TierLPayment(ledger, payments).value))
      else None
  {
    var matches: seq<Payment> := [];
    for i := 0 to |payments|
      invariant matches == Filter(payments[..i], GrossFor(ledger))
    {
      FilterSnoc(payments, i, GrossFor(ledger));
      if ledger.reference == payments[i].orderId && ledger.amount == payments[i].amount &&
         WithinDays(ledger.bookedAt, payments[i].capturedAt, 3) {
        matches := matches + [payments[i]];
      }
    }
    assert payments[..|payments|] == payments;
    UniqueIff(payments, GrossFor(ledger));
    if |matches| != 1 { return None; }
    result := Some(TierLResult(ledger, matches[0]));
  }

  /** TierL.Classify. */
  method TierLClassify(ledger: LedgerLine, payments: seq<Payment>) returns (exception: Exception)
    ensures exception == LedgerException(ledger, payments)
    ensures exception.reason == LedgerAmountMismatch <==> exists p :: p in payments && ReferencedPayment(ledger, p)
  {
    for i := 0 to |payments|
      invariant Filter(payments[..i], ReferencedFor(ledger)) == []
    {
      FilterSnoc(payments, i, ReferencedFor(ledger));
      if ledger.reference == payments[i].orderId && WithinDays(ledger.bookedAt, payments[i].capturedAt, 3) {
        assert payments == payments[..i + 1] + payments[i + 1..];
        FilterAppend(payments[..i + 1], payments[i + 1..], ReferencedFor(ledger));
        return Exception(LedgerRecord(ledger.id), LedgerAmountMismatch, ledger.amount,
                         LedgerCandidate(payments[i].id, payments[i].amount));
      }
    }
    assert payments[..|payments|] == payments;
    FilterMembers(payments, ReferencedFor(ledger));
    assert forall p :: p in payments ==> !ReferencedFor(ledger)(p);
    exception := Exception(LedgerRecord(ledger.id), LedgerOrphan, ledger.amount, Nothing);
  }

  /** ClassifyPayment. */
  method ClassifyPayment(payment: Payment, candidates: seq<SettlementLine>) returns (exception: Exception)
    ensures exception == PaymentException(payment, candidates)
    ensures exception.reason == Ambiguous <==> TwoPlausible(payment, candidates)
    ensures exception.reason == NoCandidate <==> candidates == []
  {
    MoreThanOneIff(candidates, PlausibleFor(payment));
    var count := 0;
    for i := 0 to |candidates|
      invariant count == |Filter(candidates[..i], PlausibleFor(payment))|
    {
      FilterSnoc(candidates, i, PlausibleFor(payment));
      if candidates[i].credit == payment.NetAmount() &&
         InFutureWindow(payment.capturedAt, candidates[i].settledAt, payment.sla) {
        count := count + 1;
      }
    }
    assert candidates[..|candidates|] == candidates;
    if count > 1 { return Exception(PaymentRecord(payment.id), Ambiguous, payment.amount, CandidateCount(count)); }
    if |candidates| == 0 { return Exception(PaymentRecord(payment.id), NoCandidate, payment.amount, Nothing); }
    exception := Exception(PaymentRecord(payment.id), AmountMismatch, payment.amount, ExpectedNet(payment.NetAmount()));
  }

  // ---------------------------------------------------------------- tier hierarchy

  /** Everything Tier 1 accepts, Tier 2 accepts, for any identifiers. */
  lemma ExactIsBounded(p: Payment, l: SettlementLine)
    requires ExactLine(p, l)
    ensures BoundedLine(p, l)
  {
    LoopOnEqual(Normalize(p.id));
  }

  /** A Tier 2 match after a Tier 1 refusal means that no exact candidate was offered at all. */
  lemma Tier2AfterTier1(p: Payment, lines: seq<SettlementLine>)
    requires Tier1Line(p, lines).None? && Tier2Line(p, lines).Some?
    ensures forall l :: l in lines ==> !ExactLine(p, l)
  {
    forall l | l in lines ensures !ExactLine(p, l) {
      if ExactLine(p, l) {
        var i :| 0 <= i < |lines| && lines[i] == l;
        var k := UniqueIsOnlyAt(lines, BoundedFor(p));
        ExactIsBounded(p, l);
        assert BoundedFor(p)(lines[i]);
        forall j | 0 <= j < |lines| && ExactFor(p)(lines[j]) ensures j == i {
          ExactIsBounded(p, lines[j]);
          assert BoundedFor(p)(lines[j]);
        }
        OnlyAtIsUnique(lines, ExactFor(p), i);
      }
    }
  }

  /** Reordering the candidates changes neither the match nor the exception of a payment. */
  lemma PaymentOrderIndependent(p: Payment, lines: seq<SettlementLine>, permuted: seq<SettlementLine>)
    requires multiset(lines) == multiset(permuted)
    ensures DeterministicMatch(p, lines) == DeterministicMatch(p, permuted)
    ensures ClaimedLine(p, lines) == ClaimedLine(p, permuted)
    ensures PaymentException(p, lines) == PaymentException(p, permuted)
  {
    UniquePermuted(lines, permuted, ExactFor(p));
    UniquePermuted(lines, permuted, BoundedFor(p));
    FilterPermuted(lines, permuted, PlausibleFor(p));
    assert |multiset(lines)| == |multiset(permuted)|;
  }

  /** Reordering the payments changes neither the ledger match nor the reason and amount of the exception. */
  lemma LedgerOrderIndependent(l: LedgerLine, payments: seq<Payment>, permuted: seq<Payment>)
    requires multiset(payments) == multiset(permuted)
    ensures TierLPayment(l, payments) == TierLPayment(l, permuted)
    ensures LedgerException(l, payments).(evidence := Nothing) == LedgerException(l, permuted).(evidence := Nothing)
  {
    UniquePermuted(payments, permuted, GrossFor(l));
    FilterPermuted(payments, permuted, ReferencedFor(l));
  }

  /** A referenced payment moved to the front is the one the evidence names. */
  lemma ReferencedFirst(l: LedgerLine, payments: seq<Payment>, p: Payment) returns (permuted: seq<Payment>)
    requires p in payments && ReferencedPayment(l, p)
    ensures multiset(permuted) == multiset(payments)
    ensures LedgerException(l, permuted).evidence == LedgerCandidate(p.id, p.amount)
  {
    hide ReferencedPayment;
    var i :| 0 <= i < |payments| && payments[i] == p;
    var rest := payments[..i] + payments[i + 1..];
    permuted := [p] + rest;
    assert payments == payments[..i] + [p] + payments[i + 1..];
    FilterAppend([p], rest, ReferencedFor(l));
    FilterOne(p, ReferencedFor(l));
  }

  lemma EvidenceIsReferenced(l: LedgerLine, payments: seq<Payment>) returns (p: Payment)
    requires LedgerException(l, payments).reason == LedgerAmountMismatch
    ensures p in payments && ReferencedPayment(l, p)
    ensures LedgerException(l, payments).evidence == LedgerCandidate(p.id, p.amount)
  {
    FilterMembers(payments, ReferencedFor(l));
    p := Filter(payments, ReferencedFor(l))[0];
    assert p in Filter(payments, ReferencedFor(l));
  }

  /** All payments the ledger line refers to have the same identifier and amount. */
  predicate OneReference(l: LedgerLine, payments: seq<Payment>)
  {
    forall p, q :: p in payments && q in payments && ReferencedPayment(l, p) && ReferencedPayment(l, q)
      ==> p.id == q.id && p.amount == q.amount
  }

  lemma SameEvidence(l: LedgerLine, payments: seq<Payment>, permuted: seq<Payment>)
    requires multiset(payments) == multiset(permuted) && OneReference(l, payments)
    ensures LedgerException(l, permuted) == LedgerException(l, payments)
  {
    LedgerOrderIndependent(l, payments, permuted);
    if LedgerException(l, payments).reason == LedgerAmountMismatch {
      var p := EvidenceIsReferenced(l, payments);
      var q := EvidenceIsReferenced(l, permuted);
      assert q in multiset(payments);
    }
  }

  /** The evidence of a ledger exception is the same in every order of the payments exactly when all payments it
      could name have the same identifier and amount. */
  lemma LedgerEvidenceIff(l: LedgerLine, payments: seq<Payment>)
    ensures OneReference(l, payments) <==>
      forall permuted :: multiset(permuted) == multiset(payments) ==>
        LedgerException(l, permuted) == LedgerException(l, payments)
  {
    hide LedgerException;
    if OneReference(l, payments) {
      forall permuted | multiset(permuted) == multiset(payments)
        ensures LedgerException(l, permuted) == LedgerException(l, payments)
      {
        SameEvidence(l, payments, permuted);
      }
    } else {
      var p, q :| p in payments && q in payments && ReferencedPayment(l, p) && ReferencedPayment(l, q)
        && !(p.id == q.id && p.amount == q.amount);
      var first := ReferencedFirst(l, payments, p);
      var second := ReferencedFirst(l, payments, q);
      assert LedgerException(l, first) != LedgerException(l, second);
    }
  }

  /** The tiers' tests, spelled out: equal or nearly equal identifiers, a credit that makes up the amount with fee and
      tax, and a settlement from capture to the end of the SLA. */
  lemma LineTests(p: Payment, l: SettlementLine)
    ensures var fits := l.credit + p.fee + p.tax == p.amount && 0 <= l.settledAt - p.capturedAt <= p.sla;
      && (ExactLine(p, l) <==> l.entityId == p.id && fits)
      && (PlausibleLine(p, l) <==> fits)
      && (BoundedLine(p, l) <==> LoopDistance(Normalize(p.id), Normalize(l.entityId)) <= 2 && fits)
  {
    hide Normalize;
  }

  /** A plausible line whose identifier differs from the payment's only in letter case and separators passes Tier 2. */
  lemma FormattingIsIgnored(p: Payment, l: SettlementLine)
    requires PlausibleLine(p, l) && SameButCase(Squeeze(p.id), Squeeze(l.entityId))
    ensures BoundedLine(p, l)
  {
    NormalizeIff(p.id, l.entityId);
    LoopOnEqual(Normalize(p.id));
  }

  lemma {:induction false} SameLineTests(s: seq<SettlementLine>, p: SettlementLine -> bool, q: SettlementLine -> bool)
    requires forall l :: p(l) == q(l)
    ensures Filter(s, p) == Filter(s, q)
  {
    if s != [] { SameLineTests(s[..|s| - 1], p, q); }
  }

  /** Tier 2 gives payments that differ only in the formatting of their identifiers the same line. */
  lemma Tier2IgnoresFormatting(p: Payment, id: string, lines: seq<SettlementLine>)
    requires SameButCase(Squeeze(p.id), Squeeze(id))
    ensures Tier2Line(p.(id := id), lines) == Tier2Line(p, lines)
  {
    var q := p.(id := id);
    NormalizeIff(p.id, id);
    hide Normalize;
    forall l ensures BoundedFor(p)(l) == BoundedFor(q)(l) {}
    SameLineTests(lines, BoundedFor(p), BoundedFor(q));
  }

  // ---------------------------------------------------------------- one line, two payments

  lemma ClaimIsBounded(p: Payment, lines: seq<SettlementLine>)
    requires ClaimedLine(p, lines).Some?
    ensures ClaimedLine(p, lines).value in lines && BoundedLine(p, ClaimedLine(p, lines).value)
  {
    FilterMembers(lines, ExactFor(p));
    FilterMembers(lines, BoundedFor(p));
    if Tier1Line(p, lines).Some? {
      assert Tier1Line(p, lines).value in Filter(lines, ExactFor(p));
      ExactIsBounded(p, Tier1Line(p, lines).value);
    } else {
      assert Tier2Line(p, lines).value in Filter(lines, BoundedFor(p));
    }
  }

  /** Two payments that end up on one settlement line are close in every respect, whatever their identifiers, if the
      line's normalised identifier is single-byte. */
  lemma SharedLineIsClose(p: Payment, q: Payment, l: SettlementLine, forP: seq<SettlementLine>,
                          forQ: seq<SettlementLine>)
    requires ClaimedLine(p, forP) == Some(l) && ClaimedLine(q, forQ) == Some(l)
    ensures SingleByte(Normalize(l.entityId)) ==> Dist(Normalize(p.id), Normalize(q.id)) <= 4
    ensures p.NetAmount() == q.NetAmount()
    ensures -Max(p.sla, q.sla) <= p.capturedAt - q.capturedAt <= Max(p.sla, q.sla)
  {
    ClaimIsBounded(p, forP);
    ClaimIsBounded(q, forQ);
    CloseToSameIff(Normalize(l.entityId));
  }

  function Max(a: int, b: int): int { if a > b then a else b }

  lemma ClaimsLonelyLine(p: Payment, l: SettlementLine)
    requires BoundedLine(p, l)
    ensures ClaimedLine(p, [l]) == Some(l)
  {
    hide BoundedLine;
    OnlyAtIsUnique([l], BoundedFor(p), 0);
    if ExactLine(p, l) { OnlyAtIsUnique([l], ExactFor(p), 0); } else { FilterNone([l], ExactFor(p)); }
  }

  /** Normalising leaves the string alone. */
  predicate Normal(s: string) { forall i :: 0 <= i < |s| ==> !Separator(s[i]) && ToLower(s[i]) == s[i] }

  lemma {:induction false} NormalizeKeeps(s: string)
    requires Normal(s)
    ensures Normalize(s) == s
  {
    if s != [] {
      NormalizeKeeps(s[..|s| - 1]);
      assert s == s[..|s| - 1] + [s[|s| - 1]];
    }
  }

  lemma {:induction false} NormalizeIsNormal(s: string)
    ensures Normal(Normalize(s))
  {
    if s != [] { NormalizeIsNormal(s[..|s| - 1]); }
  }

  /** A payment that a line settles on its own, under the given identifier. */
  lemma PaymentFor(l: SettlementLine, id: string) returns (p: Payment)
    requires Normal(id) && LoopDistance(id, Normalize(l.entityId)) <= 2
    ensures Normalize(p.id) == id && ClaimedLine(p, [l]) == Some(l)
  {
    hide LoopDistance;
    hide ClaimedLine;
    NormalizeKeeps(id);
    p := Payment(id, "", l.credit, 0, 0, "", l.settledAt, 0);
    ClaimsLonelyLine(p, l);
  }

  /** A line whose normalised identifier is multi-byte settles payments whose identifiers are far apart. */
  lemma SharedLineFarApart(l: SettlementLine) returns (p: Payment, q: Payment)
    requires !SingleByte(Normalize(l.entityId))
    ensures ClaimedLine(p, [l]) == Some(l) && ClaimedLine(q, [l]) == Some(l)
    ensures Dist(Normalize(p.id), Normalize(q.id)) > 4
  {
    hide LoopDistance;
    hide Dist;
    hide ClaimedLine;
    var entity := Normalize(l.entityId);
    var k :| 0 <= k < |entity| && Width(entity[k]) != 1;
    var a, b := FarPair(entity, k);
    NormalizeIsNormal(l.entityId);
    hide Normalize;
    MadeOfNormal(a, entity);
    MadeOfNormal(b, entity);
    p := PaymentFor(l, a);
    q := PaymentFor(l, b);
  }

  lemma MadeOfNormal(s: string, from: string)
    requires Normal(from) && forall c :: c in s ==> c == 'a' || c in from
    ensures Normal(s)
  {
    forall i | 0 <= i < |s| ensures !Separator(s[i]) && ToLower(s[i]) == s[i] {
      assert s[i] in s;
    }
  }

  /** The identifier itself may be multi-byte all the same: a Kelvin sign normalises to a letter. */
  lemma WideIdentifierCanBeSafe()
    ensures !SingleByte("\U{212A}") && SingleByte(Normalize("\U{212A}"))
  {
    assert Width("\U{212A}"[0]) == 3;
    assert "\U{212A}"[..0] == [] && Normalize([]) == [];
    assert Normalize("\U{212A}") == ['k'];
  }

  /** Two payments, whatever their identifiers and candidates, settled by the same line are within four edits of each
      other exactly when the line's normalised identifier is single-byte. */
  lemma LineSharingIff(l: SettlementLine)
    ensures SingleByte(Normalize(l.entityId)) <==>
      forall p, q, forP, forQ :: ClaimedLine(p, forP) == Some(l) && ClaimedLine(q, forQ) == Some(l)
        ==> Dist(Normalize(p.id), Normalize(q.id)) <= 4
  {
    hide ClaimedLine;
    hide Dist;
    hide Normalize;
    if SingleByte(Normalize(l.entityId)) {
      forall p, q, forP, forQ | ClaimedLine(p, forP) == Some(l) && ClaimedLine(q, forQ) == Some(l)
        ensures Dist(Normalize(p.id), Normalize(q.id)) <= 4
      {
        SharedLineIsClose(p, q, l, forP, forQ);
      }
    } else {
      var p, q := SharedLineFarApart(l);
    }
  }

  /** A run whose normalised payment identifiers are pairwise more than four edits apart assigns no line twice, except
      one whose normalised identifier is multi-byte. */
  lemma FarIdentifiersNeverShare(payments: seq<Payment>, lines: Payment -> seq<SettlementLine>, i: nat, j: nat)
    requires i < j < |payments|
    requires forall k, m :: 0 <= k < m < |payments| ==> Dist(Normalize(payments[k].id), Normalize(payments[m].id)) > 4
    ensures var claimed := ClaimedLine(payments[i], lines(payments[i]));
      claimed.Some? && claimed == ClaimedLine(payments[j], lines(payments[j])) ==>
        !SingleByte(Normalize(claimed.value.entityId))
  {
    var p, q := payments[i], payments[j];
    var claimed := ClaimedLine(p, lines(p));
    if claimed.Some? && claimed == ClaimedLine(q, lines(q)) {
      SharedLineIsClose(p, q, claimed.value, lines(p), lines(q));
    }
  }
}
