/** The engine's loops and writers (internal/matcher/dispatcher.go, internal/matcher/report.go) over a store whose
    writes may start failing at any point; proved to perform a prefix of the plan of Engine. */
module MatchingRun {
  import opened Sequences
  import opened Recon
  import opened Tables
  import opened Engine

  // ---------------------------------------------------------------- report

  ghost function Total<K(!new)>(counts: map<K, nat>): nat
  {
    if counts == map[] then 0 else var k :| k in counts; counts[k] + Total(counts - {k})
  }

  lemma {:induction false} TotalWithout<K(!new)>(counts: map<K, nat>, k: K)
    requires k in counts
    ensures Total(counts) == counts[k] + Total(counts - {k})
    decreases |counts|
  {
    var j :| j in counts && Total(counts) == counts[j] + Total(counts - {j});
    if j != k {
      TotalWithout(counts - {j}, k);
      TotalWithout(counts - {k}, j);
      assert counts - {j} - {k} == counts - {k} - {j};
    }
  }

  function CountOf<K>(counts: map<K, nat>, k: K): nat { if k in counts then counts[k] else 0 }

  function Bumped<K>(counts: map<K, nat>, k: K): map<K, nat> { counts[k := CountOf(counts, k) + 1] }

  /** Incrementing one counter raises the sum by one. */
  lemma TotalBumped<K(!new)>(counts: map<K, nat>, k: K)
    ensures Total(Bumped(counts, k)) == Total(counts) + 1
  {
    var bumped := Bumped(counts, k);
    TotalWithout(bumped, k);
    assert bumped - {k} == counts - {k};
    if k in counts { TotalWithout(counts, k); } else { assert counts - {k} == counts; }
  }

  method SumCounts<K(!new, ==)>(counts: map<K, nat>) returns (total: nat)
    ensures total == Total(counts)
  {
    total := 0;
    var rest := counts;
    while rest != map[]
      invariant total + Total(rest) == Total(counts)
      decreases |rest|
    {
      var k :| k in rest;
      TotalWithout(rest, k);
      total, rest := total + rest[k], rest - {k};
    }
  }

  class Report {
    var matchedByConfidence: map<Confidence, nat>
    var exceptionsByReason: map<Reason, nat>

    constructor ()
      ensures matchedByConfidence == map[] && exceptionsByReason == map[]
    {
      matchedByConfidence, exceptionsByReason := map[], map[];
    }

    method RecordMatched(confidence: Confidence)
      modifies this
      ensures Total(matchedByConfidence) == old(Total(matchedByConfidence)) + 1
      ensures matchedByConfidence == Bumped(old(matchedByConfidence), confidence)
      ensures exceptionsByReason == old(exceptionsByReason)
    {
      TotalBumped(matchedByConfidence, confidence);
      matchedByConfidence := Bumped(matchedByConfidence, confidence);
    }

    method RecordException(reason: Reason)
      modifies this
      ensures Total(exceptionsByReason) == old(Total(exceptionsByReason)) + 1
      ensures exceptionsByReason == Bumped(old(exceptionsByReason), reason)
      ensures matchedByConfidence == old(matchedByConfidence)
    {
      TotalBumped(exceptionsByReason, reason);
      exceptionsByReason := Bumped(exceptionsByReason, reason);
    }

    method TotalMatched() returns (total: nat)
      ensures total == Total(matchedByConfidence)
    {
      total := SumCounts(matchedByConfidence);
    }

    method TotalExceptions() returns (total: nat)
      ensures total == Total(exceptionsByReason)
    {
      total := SumCounts(exceptionsByReason);
    }
  }

  /** Between two states of the report the counters, one by one and in total, grew by exactly the rows in `ws`, which
      come with one audit entry each. */
  ghost predicate Counted(m0: map<Confidence, nat>, e0: map<Reason, nat>, m1: map<Confidence, nat>,
                          e1: map<Reason, nat>, ws: seq<Write>)
  {
    && (forall c :: CountOf(m1, c) == CountOf(m0, c) + |Filter(ws, MatchWith(c))|)
    && (forall r :: CountOf(e1, r) == CountOf(e0, r) + |Filter(ws, ExceptionWith(r))|)
    && Total(m1) == Total(m0) + |Filter(ws, IsMatch())|
    && Total(e1) == Total(e0) + |Filter(ws, IsException())|
    && |Filter(ws, IsAudit())| == |Filter(ws, IsMatch())| + |Filter(ws, IsException())|
  }

  lemma CountedAppend(m0: map<Confidence, nat>, e0: map<Reason, nat>, m1: map<Confidence, nat>, e1: map<Reason, nat>,
                      m2: map<Confidence, nat>, e2: map<Reason, nat>, a: seq<Write>, b: seq<Write>)
    requires Counted(m0, e0, m1, e1, a) && Counted(m1, e1, m2, e2, b)
    ensures Counted(m0, e0, m2, e2, a + b)
  {
    FilterAppend(a, b, IsMatch());
    FilterAppend(a, b, IsException());
    FilterAppend(a, b, IsAudit());
    hide Filter;
    hide CountOf;
    forall c: Confidence ensures CountOf(m2, c) == CountOf(m0, c) + |Filter(a + b, MatchWith(c))| {
      FilterAppend(a, b, MatchWith(c));
      assert CountOf(m1, c) == CountOf(m0, c) + |Filter(a, MatchWith(c))|;
    }
    forall r: Reason ensures CountOf(e2, r) == CountOf(e0, r) + |Filter(a + b, ExceptionWith(r))| {
      FilterAppend(a, b, ExceptionWith(r));
      assert CountOf(e1, r) == CountOf(e0, r) + |Filter(a, ExceptionWith(r))|;
    }
  }

  function IsMatch(): Write -> bool { (w: Write) => w.InsertMatch? }
  function IsException(): Write -> bool { (w: Write) => w.InsertException? }
  function IsAudit(): Write -> bool { (w: Write) => w.AppendAudit? }
  function MatchWith(c: Confidence): Write -> bool { (w: Write) => w.InsertMatch? && w.row.confidence == c }
  function ExceptionWith(r: Reason): Write -> bool { (w: Write) => w.InsertException? && w.exception.reason == r }

  /** The writes of one decision: one outcome row and one audit entry. */
  predicate OneDecision(ws: seq<Write>)
  {
    && (|ws| == 2 || (|ws| == 3 && ws[1].SetMatched?))
    && (ws[0].InsertMatch? || ws[0].InsertException?)
    && ws[|ws| - 1].AppendAudit?
  }

  lemma DecisionCount(ws: seq<Write>, p: Write -> bool)
    requires OneDecision(ws)
    requires forall w: Write :: w.SetMatched? ==> !p(w)
    ensures |Filter(ws, p)| == (if p(ws[0]) then 1 else 0) + (if p(ws[|ws| - 1]) then 1 else 0)
  {
    FilterOne(ws[0], p);
    FilterOne(ws[|ws| - 1], p);
    if |ws| == 2 {
      assert ws == [ws[0]] + [ws[1]];
      FilterAppend([ws[0]], [ws[1]], p);
    } else {
      assert ws == [ws[0]] + [ws[1]] + [ws[2]];
      FilterOne(ws[1], p);
      FilterAppend([ws[0]], [ws[1]], p);
      FilterAppend([ws[0]] + [ws[1]], [ws[2]], p);
    }
  }

  lemma DecisionCounted(m0: map<Confidence, nat>, e0: map<Reason, nat>, m1: map<Confidence, nat>, e1: map<Reason, nat>,
                        ws: seq<Write>)
    requires OneDecision(ws)
    requires m1 == if ws[0].InsertMatch? then Bumped(m0, ws[0].row.confidence) else m0
    requires e1 == if ws[0].InsertException? then Bumped(e0, ws[0].exception.reason) else e0
    ensures Counted(m0, e0, m1, e1, ws)
  {
    DecisionCount(ws, IsMatch());
    DecisionCount(ws, IsException());
    DecisionCount(ws, IsAudit());
    forall c: Confidence ensures CountOf(m1, c) == CountOf(m0, c) + |Filter(ws, MatchWith(c))| {
      DecisionCount(ws, MatchWith(c));
    }
    forall r: Reason ensures CountOf(e1, r) == CountOf(e0, r) + |Filter(ws, ExceptionWith(r))| {
      DecisionCount(ws, ExceptionWith(r));
    }
    hide Filter;
    if ws[0].InsertMatch? { TotalBumped(m0, ws[0].row.confidence); } else { TotalBumped(e0, ws[0].exception.reason); }
  }

  // ---------------------------------------------------------------- store with failing writes

  lemma ApplySnoc(s: Store, ws: seq<Write>, k: nat)
    requires k < |ws|
    ensures ApplyAll(s, ws[..k + 1]) == Apply(ApplyAll(s, ws[..k]), ws[k])
  {
    assert ws[..k + 1][..k] == ws[..k];
  }

  class ReconStore {
    /** Whether a write reported as failed takes effect all the same. */
    const unanswered: bool
    var tables: Store
    /** Some(n): n more writes are acknowledged, then every write is reported as failed. */
    var fuse: Option<nat>

    constructor (tables: Store, fuse: Option<nat>, unanswered: bool)
      ensures this.tables == tables && this.fuse == fuse && this.unanswered == unanswered
    {
      this.tables, this.fuse, this.unanswered := tables, fuse, unanswered;
    }

    /** `landed` counts the writes that took effect: one, or none. */
    method Perform(w: Write) returns (ok: bool, ghost landed: nat)
      modifies this
      ensures ok <==> old(fuse) != Some(0)
      ensures landed == if ok || unanswered then 1 else 0
      ensures tables == if landed == 1 then Apply(old(tables), w) else old(tables)
      ensures fuse.None? <==> old(fuse).None?
    {
      ok := fuse != Some(0);
      landed := if ok || unanswered then 1 else 0;
      if fuse.Some? && ok { fuse := Some(fuse.value - 1); }
      if ok || unanswered { tables := Apply(tables, w); }
    }
  }

  // ---------------------------------------------------------------- engine

  function OfPaymentMethod(m: string): PaymentRow -> bool { (r: PaymentRow) => r.paymentMethod == m }

  function Group(rows: seq<PaymentRow>): string -> seq<PaymentRow> { (m: string) => Filter(rows, OfPaymentMethod(m)) }

  function Lookup(groups: map<string, seq<PaymentRow>>, m: string): seq<PaymentRow>
  {
    if m in groups then groups[m] else []
  }

  ghost predicate Grouped(groups: map<string, seq<PaymentRow>>, rows: seq<PaymentRow>)
  {
    forall m: string :: Lookup(groups, m) == Group(rows)(m)
  }

  lemma GroupGrows(rows: seq<PaymentRow>, r: PaymentRow, m: string)
    ensures Group(rows + [r])(m) == Group(rows)(m) + if m == r.paymentMethod then [r] else []
  {
    FilterAppend(rows, [r], OfPaymentMethod(m));
    FilterOne(r, OfPaymentMethod(m));
  }

  lemma GroupedStep(groups: map<string, seq<PaymentRow>>, rows: seq<PaymentRow>, r: PaymentRow)
    requires Grouped(groups, rows)
    ensures Grouped(groups[r.paymentMethod := Lookup(groups, r.paymentMethod) + [r]], rows + [r])
  {
    hide Group;
    var grown := groups[r.paymentMethod := Lookup(groups, r.paymentMethod) + [r]];
    forall m: string ensures Lookup(grown, m) == Group(rows + [r])(m) {
      GroupGrows(rows, r, m);
      assert Lookup(groups, m) == Group(rows)(m);
    }
  }

  /** groupByMethod: each method's group is the loaded rows of that method, in order. */
  method GroupByMethod(rows: seq<PaymentRow>) returns (groups: map<string, seq<PaymentRow>>)
    ensures Grouped(groups, rows)
    ensures forall i | 0 <= i < |rows| :: rows[i].paymentMethod in groups
  {
    hide Group;
    groups := map[];
    assert Grouped(groups, []) by { forall m: string ensures Group([])(m) == [] { EmptyGroup(m); } }
    for i := 0 to |rows|
      invariant Grouped(groups, rows[..i])
      invariant forall j | 0 <= j < i :: rows[j].paymentMethod in groups
    {
      var m := rows[i].paymentMethod;
      GroupedStep(groups, rows[..i], rows[i]);
      assert rows[..i + 1] == rows[..i] + [rows[i]];
      groups := groups[m := Lookup(groups, m) + [rows[i]]];
    }
    assert rows[..|rows|] == rows;
  }

  lemma EmptyGroup(m: string)
    ensures Group([])(m) == []
  {
  }

  /** Iteration over a Go map: each key once, in some order. */
  method SomeOrder(keys: set<string>) returns (order: seq<string>)
    ensures forall i, j :: 0 <= i < j < |order| ==> order[i] != order[j]
    ensures forall k :: k in keys <==> k in order
  {
    order := [];
    var rest := keys;
    while rest != {}
      invariant rest <= keys
      invariant forall i, j :: 0 <= i < j < |order| ==> order[i] != order[j]
      invariant forall k :: k in order <==> k in keys && k !in rest
    {
      var k :| k in rest;
      order, rest := order + [k], rest - {k};
    }
  }

  lemma {:induction false} GroupsAddOne(keys: seq<string>, rows: seq<PaymentRow>, r: PaymentRow)
    requires forall i, j :: 0 <= i < j < |keys| ==> keys[i] != keys[j]
    ensures multiset(Flat(keys, Group(rows + [r]))) ==
      multiset(Flat(keys, Group(rows))) + if r.paymentMethod in keys then multiset{r} else multiset{}
  {
    if keys != [] {
      hide *;
      var init, k, m := keys[..|keys| - 1], keys[|keys| - 1], r.paymentMethod;
      var before, after := Group(rows), Group(rows + [r]);
      GroupsAddOne(init, rows, r);
      GroupGrows(rows, r, k);
      FlatLast(init, k, after);
      FlatLast(init, k, before);
      assert keys == init + [k];
      LastKey(init, k, m);
      JoinOne(Flat(init, before), Flat(init, after), before(k), after(k), r, m in init, m == k);
    }
  }

  lemma JoinOne(a: seq<PaymentRow>, a': seq<PaymentRow>, b: seq<PaymentRow>, b': seq<PaymentRow>, r: PaymentRow,
                left: bool, right: bool)
    requires multiset(a') == multiset(a) + if left then multiset{r} else multiset{}
    requires b' == b + if right then [r] else []
    requires !(left && right)
    ensures multiset(a' + b') == multiset(a + b) + if left || right then multiset{r} else multiset{}
  {
  }

  lemma LastKey(init: seq<string>, k: string, m: string)
    requires forall i, j :: 0 <= i < j < |init + [k]| ==> (init + [k])[i] != (init + [k])[j]
    ensures m in init + [k] <==> m in init || m == k
    ensures !(m in init && m == k)
  {
    if m in init {
      var i :| 0 <= i < |init| && init[i] == m;
      assert (init + [k])[i] != (init + [k])[|init|];
    }
  }

  /** Visiting the groups one after the other visits every loaded row as often as it was loaded. */
  lemma {:induction false} GroupsPartition(keys: seq<string>, rows: seq<PaymentRow>)
    requires forall i, j :: 0 <= i < j < |keys| ==> keys[i] != keys[j]
    requires forall i | 0 <= i < |rows| :: rows[i].paymentMethod in keys
    ensures multiset(Flat(keys, Group(rows))) == multiset(rows)
  {
    if rows == [] {
      EmptyGroups(keys);
    } else {
      var init, r := rows[..|rows| - 1], rows[|rows| - 1];
      assert rows == init + [r];
      GroupsPartition(keys, init);
      GroupsAddOne(keys, init, r);
    }
  }

  lemma {:induction false} EmptyGroups(keys: seq<string>)
    ensures Flat(keys, Group([])) == []
  {
    if keys != [] { EmptyGroups(keys[..|keys| - 1]); }
  }

  class MatchingEngine {
    const store: ReconStore
    const ranker: Ranker

    constructor (store: ReconStore, ranker: Ranker)
      ensures this.store == store && this.ranker == ranker
    {
      this.store, this.ranker := store, ranker;
    }

    /** The store holds the first `k` writes of `ws` on top of `before`, and all of them on success. After a failure
        they may be all there too: the last one may have gone unanswered. */
    ghost predicate Progress(before: Store, ws: seq<Write>, k: nat, ok: bool)
      reads store
    {
      k <= |ws| && store.tables == ApplyAll(before, ws[..k]) && (ok ==> k == |ws|)
    }

    /** recordPaymentMatch. */
    method RecordPaymentMatch(m: MatchResult, report: Report) returns (ok: bool, ghost k: nat)
      requires report as object != store
      modifies store, report
      ensures Progress(old(store.tables), MatchWrites(m), k, ok)
      ensures store.fuse.None? <==> old(store.fuse).None?
      ensures old(store.fuse).None? ==> ok
      ensures report.matchedByConfidence ==
        if ok then Bumped(old(report.matchedByConfidence), m.confidence) else old(report.matchedByConfidence)
      ensures report.exceptionsByReason == old(report.exceptionsByReason)
    {
      ghost var before, ws := store.tables, MatchWrites(m);
      var record := PaymentRecord(m.paymentId);
      ghost var landed;
      k := 0;
      ok, landed := store.Perform(InsertMatch(MatchRow(record, m.confidence, m.rule, m.evidence)));
      ApplySnoc(before, ws, 0);
      k := k + landed;
      if !ok { return; }
      ok, landed := store.Perform(AppendAudit(MatchResultWritten(record, m.confidence, m.rule)));
      ApplySnoc(before, ws, 1);
      k := k + landed;
      if !ok { return; }
      report.RecordMatched(m.confidence);
    }

    /** recordLedgerMatch. */
    method RecordLedgerMatch(m: MatchResult, report: Report) returns (ok: bool, ghost k: nat)
      requires m.ledgerLineId.Some? && report as object != store
      modifies store, report
      ensures Progress(old(store.tables), LedgerMatchWrites(m, m.ledgerLineId.value), k, ok)
      ensures store.fuse.None? <==> old(store.fuse).None?
      ensures old(store.fuse).None? ==> ok
      ensures report.matchedByConfidence ==
        if ok then Bumped(old(report.matchedByConfidence), m.confidence) else old(report.matchedByConfidence)
      ensures report.exceptionsByReason == old(report.exceptionsByReason)
    {
      ghost var before, ws := store.tables, LedgerMatchWrites(m, m.ledgerLineId.value);
      var record := LedgerRecord(m.ledgerLineId.value);
      ghost var landed;
      k := 0;
      ok, landed := store.Perform(InsertMatch(MatchRow(record, m.confidence, m.rule, m.evidence)));
      ApplySnoc(before, ws, 0);
      k := k + landed;
      if !ok { return; }
      ok, landed := store.Perform(SetMatched(m.ledgerLineId.value, m.paymentId));
      ApplySnoc(before, ws, 1);
      k := k + landed;
      if !ok { return; }
      ok, landed := store.Perform(AppendAudit(LedgerMatchWritten(record, m.paymentId, m.rule)));
      ApplySnoc(before, ws, 2);
      k := k + landed;
      if !ok { return; }
      report.RecordMatched(m.confidence);
    }

    /** recordException. */
    method RecordException(e: Exception, report: Report) returns (ok: bool, ghost k: nat)
      requires report as object != store
      modifies store, report
      ensures Progress(old(store.tables), ExceptionWrites(e), k, ok)
      ensures store.fuse.None? <==> old(store.fuse).None?
      ensures old(store.fuse).None? ==> ok
      ensures report.exceptionsByReason ==
        if ok then Bumped(old(report.exceptionsByReason), e.reason) else old(report.exceptionsByReason)
      ensures report.matchedByConfidence == old(report.matchedByConfidence)
    {
      ghost var before, ws := store.tables, ExceptionWrites(e);
      ghost var landed;
      k := 0;
      ok, landed := store.Perform(InsertException(e));
      ApplySnoc(before, ws, 0);
      k := k + landed;
      if !ok { return; }
      ok, landed := store.Perform(AppendAudit(ExceptionLogged(e.record, e.reason)));
      ApplySnoc(before, ws, 1);
      k := k + landed;
      if !ok { return; }
      report.RecordException(e.reason);
    }

    /** classifyAfterTier2. */
    method ClassifyRemaining(p: Payment, candidates: seq<SettlementLine>) returns (e: Exception)
      ensures e == ClassifyAfterTier2(p, candidates, ranker)
    {
      if |candidates| == 0 {
        e := ClassifyPayment(p, candidates);
        return;
      }
      var ranked := ranker(p, candidates);
      if ranked.None? || |ranked.value| == 0 {
        e := ClassifyPayment(p, candidates);
        return;
      }
      e := Exception(PaymentRecord(p.id), Ambiguous, p.amount, RankedCandidates(p.NetAmount(), ranked.value));
    }

    /** The body of the payment loop: Tier 1, then Tier 2, then the classifier. */
    method SettleOne(row: PaymentRow, candidates: seq<SettlementLine>, report: Report) returns (ok: bool, ghost k: nat)
      requires report as object != store
      modifies store, report
      ensures Progress(old(store.tables), PaymentWrites(Settling(row), candidates, ranker), k, ok)
      ensures store.fuse.None? <==> old(store.fuse).None?
      ensures old(store.fuse).None? ==> ok
      ensures ok ==>
        Counted(old(report.matchedByConfidence), old(report.exceptionsByReason), report.matchedByConfidence,
                report.exceptionsByReason, PaymentWrites(Settling(row), candidates, ranker))
    {
      ghost var m0, e0 := report.matchedByConfidence, report.exceptionsByReason;
      ghost var ws := PaymentWrites(Settling(row), candidates, ranker);
      var payment := Settling(row);
      var match1 := Tier1TryMatch(payment, candidates);
      if match1.Some? {
        ok, k := RecordPaymentMatch(match1.value, report);
        if ok { DecisionCounted(m0, e0, report.matchedByConfidence, report.exceptionsByReason, ws); }
        return;
      }
      var match2 := Tier2TryMatch(payment, candidates);
      if match2.Some? {
        ok, k := RecordPaymentMatch(match2.value, report);
        if ok { DecisionCounted(m0, e0, report.matchedByConfidence, report.exceptionsByReason, ws); }
        return;
      }
      var exception := ClassifyRemaining(payment, candidates);
      ok, k := RecordException(exception, report);
      if ok { DecisionCounted(m0, e0, report.matchedByConfidence, report.exceptionsByReason, ws); }
    }

    /** The body of the ledger loop: Tier L, then its classifier. */
    method BookOne(row: LedgerRow, payments: seq<Payment>, report: Report) returns (ok: bool, ghost k: nat)
      requires report as object != store
      modifies store, report
      ensures Progress(old(store.tables), LedgerWrites(ToLedgerLine(row), payments), k, ok)
      ensures store.fuse.None? <==> old(store.fuse).None?
      ensures old(store.fuse).None? ==> ok
      ensures ok ==>
        Counted(old(report.matchedByConfidence), old(report.exceptionsByReason), report.matchedByConfidence,
                report.exceptionsByReason, LedgerWrites(ToLedgerLine(row), payments))
    {
      ghost var m0, e0 := report.matchedByConfidence, report.exceptionsByReason;
      ghost var ws := LedgerWrites(ToLedgerLine(row), payments);
      var ledger := ToLedgerLine(row);
      var matched := TierLTryExactMatch(ledger, payments);
      if matched.Some? {
        ok, k := RecordLedgerMatch(matched.value, report);
        if ok { DecisionCounted(m0, e0, report.matchedByConfidence, report.exceptionsByReason, ws); }
        return;
      }
      var exception := TierLClassify(ledger, payments);
      ok, k := RecordException(exception, report);
      if ok { DecisionCounted(m0, e0, report.matchedByConfidence, report.exceptionsByReason, ws); }
    }

    /** The payment loop over one method's group. */
    method SettleGroup(group: seq<PaymentRow>, candidates: seq<SettlementLine>, report: Report)
      returns (ok: bool, ghost k: nat)
      requires report as object != store
      modifies store, report
      ensures Progress(old(store.tables), Flat(group, SettleAll(candidates, ranker)), k, ok)
      ensures store.fuse.None? <==> old(store.fuse).None?
      ensures old(store.fuse).None? ==> ok
      ensures ok ==>
        Counted(old(report.matchedByConfidence), old(report.exceptionsByReason), report.matchedByConfidence,
                report.exceptionsByReason, Flat(group, SettleAll(candidates, ranker)))
    {
      hide Counted;
      hide ApplyAll;
      hide Flat;
      hide PaymentWrites;
      hide LedgerWrites;
      hide Filter;
      hide Map;
      hide SortBy;
      ghost var before, m0, e0 := store.tables, report.matchedByConfidence, report.exceptionsByReason;
      ghost var step := SettleAll(candidates, ranker);
      NothingDone(before, group, step, m0, e0);
      for i := 0 to |group|
        invariant store.tables == ApplyAll(before, Flat(group[..i], step))
        invariant store.fuse.None? <==> old(store.fuse).None?
        invariant Counted(m0, e0, report.matchedByConfidence, report.exceptionsByReason, Flat(group[..i], step))
      {
        ghost var m1, e1 := report.matchedByConfidence, report.exceptionsByReason;
        FlatSnoc(group, i, step);
        ok, k := SettleOne(group[i], candidates, report);
        if !ok {
          StoppedInside(before, group, i, step, k);
          k := |Flat(group[..i], step)| + k;
          return;
        }
        assert step(group[i])[..k] == step(group[i]);
        ApplyAppend(before, Flat(group[..i], step), step(group[i]));
        CountedAppend(m0, e0, m1, e1, report.matchedByConfidence, report.exceptionsByReason,
                      Flat(group[..i], step), step(group[i]));
      }
      assert group[..|group|] == group;
      ok, k := true, |Flat(group, step)|;
      assert Flat(group, step)[..k] == Flat(group, step);
    }

    /** runSettlementSide: one group per payment method, in map iteration order. */
    method RunSettlementSide(start: int, end: int, report: Report)
      returns (ok: bool, ghost order: seq<PaymentRow>, ghost k: nat)
      requires report as object != store
      modifies store, report
      ensures multiset(order) == multiset(GetUnmatchedPaymentsInWindow(old(store.tables), start, end))
      ensures Progress(old(store.tables), Flat(order, PaymentStep(LinesOf(old(store.tables), start, end), ranker)),
                       k, ok)
      ensures store.fuse.None? <==> old(store.fuse).None?
      ensures old(store.fuse).None? ==> ok
      ensures ok ==>
        Counted(old(report.matchedByConfidence), old(report.exceptionsByReason), report.matchedByConfidence,
                report.exceptionsByReason,
                Flat(order, PaymentStep(LinesOf(old(store.tables), start, end), ranker)))
    {
      hide Counted;
      hide ApplyAll;
      hide Flat;
      hide PaymentWrites;
      hide Grouped;
      hide GroupStep;
      hide Group;
      hide LinesOf;
      hide SettleAll;
      hide PaymentStep;
      hide GetSettlementCandidates;
      hide GetUnmatchedPaymentsInWindow;
      ghost var before, m0, e0 := store.tables, report.matchedByConfidence, report.exceptionsByReason;
      var rows := GetUnmatchedPaymentsInWindow(store.tables, start, end);
      var groups := GroupByMethod(rows);
      var keys := SomeOrder(groups.Keys);
      GroupsPartition(keys, rows);
      ghost var lines := LinesOf(before, start, end);
      order := Flat(keys, Group(rows));
      ghost var step := GroupStep(rows, lines, ranker);
      FlatOfGroups(keys, rows, lines, ranker);
      NothingDone(before, keys, step, m0, e0);
      for i := 0 to |keys|
        invariant store.tables == ApplyAll(before, Flat(keys[..i], step))
        invariant store.fuse.None? <==> old(store.fuse).None?
        invariant Counted(m0, e0, report.matchedByConfidence, report.exceptionsByReason, Flat(keys[..i], step))
      {
        ghost var m1, e1 := report.matchedByConfidence, report.exceptionsByReason;
        SameCandidates(before, Flat(keys[..i], step), keys[i], start, end);
        var candidates := GetSettlementCandidates(store.tables, keys[i], start, end + SlaFor(keys[i]));
        var group := groups[keys[i]];
        GroupStepOf(groups, rows, lines, ranker, keys[i]);
        FlatSnoc(keys, i, step);
        ok, k := SettleGroup(group, candidates, report);
        if !ok {
          StoppedInside(before, keys, i, step, k);
          k := |Flat(keys[..i], step)| + k;
          return;
        }
        assert step(keys[i])[..k] == step(keys[i]);
        ApplyAppend(before, Flat(keys[..i], step), step(keys[i]));
        CountedAppend(m0, e0, m1, e1, report.matchedByConfidence, report.exceptionsByReason,
                      Flat(keys[..i], step), step(keys[i]));
      }
      assert keys[..|keys|] == keys;
      ok, k := true, |Flat(keys, step)|;
      assert Flat(keys, step)[..k] == Flat(keys, step);
    }

    /** runLedgerSide. */
    method RunLedgerSide(start: int, end: int, report: Report) returns (ok: bool, ghost k: nat)
      requires report as object != store
      modifies store, report
      ensures Progress(old(store.tables), LedgerPlan(QueryLoads(old(store.tables), start, end)), k, ok)
      ensures old(store.fuse).None? ==> ok
      ensures ok ==>
        Counted(old(report.matchedByConfidence), old(report.exceptionsByReason), report.matchedByConfidence,
                report.exceptionsByReason, LedgerPlan(QueryLoads(old(store.tables), start, end)))
    {
      hide Counted;
      hide ApplyAll;
      hide Flat;
      hide PaymentWrites;
      hide LedgerWrites;
      hide Filter;
      hide Map;
      hide SortBy;
      ghost var before, m0, e0 := store.tables, report.matchedByConfidence, report.exceptionsByReason;
      var ledgers := GetUnmatchedLedgerLines(store.tables, start - 2 * LAG, end + 2 * LAG);
      if |ledgers| == 0 {
        NothingDone(before, ledgers, LedgerStep(QueryLoads(before, start, end).ledgerPayments), m0, e0);
        return true, 0;
      }
      var rows := GetPaymentsInWindow(store.tables, start - LAG, end + LAG);
      var payments := Map(rows, AsPayment());
      ghost var step := LedgerStep(rows);
      NothingDone(before, ledgers, step, m0, e0);
      for i := 0 to |ledgers|
        invariant store.tables == ApplyAll(before, Flat(ledgers[..i], step))
        invariant store.fuse.None? <==> old(store.fuse).None?
        invariant Counted(m0, e0, report.matchedByConfidence, report.exceptionsByReason, Flat(ledgers[..i], step))
      {
        ghost var m1, e1 := report.matchedByConfidence, report.exceptionsByReason;
        FlatSnoc(ledgers, i, step);
        ok, k := BookOne(ledgers[i], payments, report);
        if !ok {
          StoppedInside(before, ledgers, i, step, k);
          k := |Flat(ledgers[..i], step)| + k;
          return;
        }
        assert step(ledgers[i])[..k] == step(ledgers[i]);
        ApplyAppend(before, Flat(ledgers[..i], step), step(ledgers[i]));
        CountedAppend(m0, e0, m1, e1, report.matchedByConfidence, report.exceptionsByReason,
                      Flat(ledgers[..i], step), step(ledgers[i]));
      }
      assert ledgers[..|ledgers|] == ledgers;
      ok, k := true, |Flat(ledgers, step)|;
      assert Flat(ledgers, step)[..k] == Flat(ledgers, step);
    }

    /** RunWindow: a run performs a prefix of the plan of its loads, all of it exactly when no write fails; it keeps
        the outcome invariant either way, and after a complete run every payment captured in the window has exactly one
        outcome and the report counts the rows and audit entries written. */
    method RunWindow(start: int, end: int) returns (report: Report, ok: bool, ghost loads: Loads, ghost k: nat)
      modifies store
      ensures fresh(report)
      ensures Loaded(old(store.tables), start, end, loads)
      ensures Progress(old(store.tables), Plan(loads, ranker), k, ok)
      ensures old(store.fuse).None? ==> ok
      ensures ok ==> Counted(map[], map[], report.matchedByConfidence, report.exceptionsByReason, Plan(loads, ranker))
      ensures old(Consistent(store.tables)) ==> Consistent(store.tables)
      ensures ok && old(Consistent(store.tables)) ==> Decided(store.tables, start, end)
    {
      hide Decided;
      hide Counted;
      hide ApplyAll;
      hide Consistent;
      hide Flat;
      hide Loaded;
      report := new Report();
      ghost var before, order, k2 := store.tables, [], 0;
      ok, order, k := RunSettlementSide(start, end, report);
      loads := QueryLoads(before, start, end).(payments := order);
      QueriesLoad(before, start, end, order);
      ghost var first, second := SettlementPlan(loads, ranker), LedgerPlan(loads);
      if ok {
        assert first[..k] == first;
        SettlementLeavesLedger(before, start, end, loads, ranker);
        ghost var m1, e1 := report.matchedByConfidence, report.exceptionsByReason;
        ok, k2 := RunLedgerSide(start, end, report);
        ApplyAppend(before, first, second[..k2]);
        assert Plan(loads, ranker)[..|first| + k2] == first + second[..k2];
        k := |first| + k2;
        if ok {
          CountedAppend(map[], map[], m1, e1, report.matchedByConfidence, report.exceptionsByReason, first, second);
        }
      } else {
        assert Plan(loads, ranker)[..k] == first[..k];
      }
      if Consistent(before) {
        RunKeepsConsistent(before, start, end, loads, ranker, k);
        CompleteRunDecidesAll(before, start, end, loads, ranker);
        assert ok ==> Plan(loads, ranker)[..k] == Plan(loads, ranker);
      }
    }
  }

  /** The writes of one payment method's group. */
  function GroupStep(rows: seq<PaymentRow>, lines: string -> seq<SettlementLine>, rank: Ranker): string -> seq<Write>
  {
    (m: string) => Flat(Group(rows)(m), SettleAll(lines(m), rank))
  }

  lemma GroupStepOf(groups: map<string, seq<PaymentRow>>, rows: seq<PaymentRow>, lines: string -> seq<SettlementLine>,
                    rank: Ranker, m: string)
    requires Grouped(groups, rows) && m in groups
    ensures GroupStep(rows, lines, rank)(m) == Flat(groups[m], SettleAll(lines(m), rank))
  {
    assert Lookup(groups, m) == Group(rows)(m);
  }

  /** A run's own writes do not change the settlement lines it loads later. */
  lemma SameCandidates(before: Store, ws: seq<Write>, m: string, start: int, end: int)
    ensures GetSettlementCandidates(ApplyAll(before, ws), m, start, end + SlaFor(m)) == LinesOf(before, start, end)(m)
  {
    Frame(before, ws);
  }

  /** Group by group is row by row. */
  lemma {:induction false} FlatOfGroups(keys: seq<string>, rows: seq<PaymentRow>, lines: string -> seq<SettlementLine>,
                                        rank: Ranker)
    ensures Flat(keys, GroupStep(rows, lines, rank)) == Flat(Flat(keys, Group(rows)), PaymentStep(lines, rank))
  {
    if keys != [] {
      hide PaymentWrites;
      var init, m := keys[..|keys| - 1], keys[|keys| - 1];
      FlatOfGroups(init, rows, lines, rank);
      FlatAppend(Flat(init, Group(rows)), Group(rows)(m), PaymentStep(lines, rank));
      FilterMembers(rows, OfPaymentMethod(m));
      FlatSame(Group(rows)(m), SettleAll(lines(m), rank), PaymentStep(lines, rank));
    }
  }

  function SettleAll(candidates: seq<SettlementLine>, rank: Ranker): PaymentRow -> seq<Write>
  {
    (r: PaymentRow) => PaymentWrites(Settling(r), candidates, rank)
  }

  /** What the queries of a run over [start, end) return from `s`. */
  function QueryLoads(s: Store, start: int, end: int): Loads
  {
    Loads(GetUnmatchedPaymentsInWindow(s, start, end), LinesOf(s, start, end),
          GetUnmatchedLedgerLines(s, start - 2 * LAG, end + 2 * LAG), GetPaymentsInWindow(s, start - LAG, end + LAG))
  }

  function LinesOf(s: Store, start: int, end: int): string -> seq<SettlementLine>
  {
    (m: string) => GetSettlementCandidates(s, m, start, end + SlaFor(m))
  }

  lemma QueriesLoad(s: Store, start: int, end: int, order: seq<PaymentRow>)
    requires multiset(order) == multiset(GetUnmatchedPaymentsInWindow(s, start, end))
    ensures Loaded(s, start, end, QueryLoads(s, start, end).(payments := order))
  {
    hide Filter;
    hide SortBy;
    SortByKeeps(Filter(s.payments, UnmatchedIn(s, start, end)), Captured());
    SortByKeeps(Filter(s.payments, InWindow(start - LAG, end + LAG)), Captured());
    SortByKeeps(Filter(s.ledgers, UnmatchedLedgerIn(start - 2 * LAG, end + 2 * LAG)), Booked());
    forall m
      ensures multiset(LinesOf(s, start, end)(m)) == multiset(Filter(s.lines, CandidateIn(m, start, end + SlaFor(m))))
    {
      CandidatesLoad(s, m, start, end);
    }
    hide LinesOf;
    hide SlaFor;
  }

  lemma CandidatesLoad(s: Store, m: string, start: int, end: int)
    ensures multiset(LinesOf(s, start, end)(m)) == multiset(Filter(s.lines, CandidateIn(m, start, end + SlaFor(m))))
  {
    hide SlaFor;
    hide Filter;
    hide SortBy;
    SortByKeeps(Filter(s.lines, CandidateIn(m, start, end + SlaFor(m))), Settled());
  }

  lemma {:induction false} NoPointerWrites(s: Store, ws: seq<Write>)
    requires forall i :: 0 <= i < |ws| ==> !ws[i].SetMatched?
    ensures ApplyAll(s, ws).ledgers == s.ledgers
  {
    if ws != [] { NoPointerWrites(s, ws[..|ws| - 1]); }
  }

  lemma PaymentSetsNoPointer(p: Payment, lines: seq<SettlementLine>, rank: Ranker)
    ensures forall w | w in PaymentWrites(p, lines, rank) :: !w.SetMatched?
  {
  }

  lemma {:induction false} SettlementSetsNoPointer(rows: seq<PaymentRow>, lines: string -> seq<SettlementLine>,
                                                   rank: Ranker)
    ensures forall w | w in Flat(rows, PaymentStep(lines, rank)) :: !w.SetMatched?
  {
    if rows != [] {
      var r := rows[|rows| - 1];
      SettlementSetsNoPointer(rows[..|rows| - 1], lines, rank);
      PaymentSetsNoPointer(Settling(r), lines(r.paymentMethod), rank);
    }
  }

  /** The ledger queries see the same rows before and after the settlement side. */
  lemma SettlementLeavesLedger(s: Store, start: int, end: int, loads: Loads, rank: Ranker)
    ensures var t, low, high := ApplyAll(s, SettlementPlan(loads, rank)), start - 2 * LAG, end + 2 * LAG;
      && GetUnmatchedLedgerLines(t, low, high) == GetUnmatchedLedgerLines(s, low, high)
      && GetPaymentsInWindow(t, start - LAG, end + LAG) == GetPaymentsInWindow(s, start - LAG, end + LAG)
  {
    SettlementSetsNoPointer(loads.payments, loads.lines, rank);
    NoPointerWrites(s, SettlementPlan(loads, rank));
    Frame(s, SettlementPlan(loads, rank));
  }

  lemma NothingDone<T>(before: Store, rows: seq<T>, step: T -> seq<Write>, m: map<Confidence, nat>, e: map<Reason, nat>)
    ensures rows[..0] == [] && Flat(rows[..0], step) == [] && Flat([], step) == []
    ensures ApplyAll(before, []) == before
    ensures Counted(m, e, m, e, [])
  {
  }

  /** Stopping inside the writes of row `i` is stopping inside the writes of all rows. */
  lemma StoppedInside<T>(before: Store, rows: seq<T>, i: nat, step: T -> seq<Write>, k: nat)
    requires i < |rows| && k <= |step(rows[i])|
    ensures |Flat(rows[..i], step)| + |step(rows[i])| <= |Flat(rows, step)|
    ensures ApplyAll(ApplyAll(before, Flat(rows[..i], step)), step(rows[i])[..k])
         == ApplyAll(before, Flat(rows, step)[..|Flat(rows[..i], step)| + k])
  {
    var done, ws := Flat(rows[..i], step), step(rows[i]);
    FlatSnoc(rows, i, step);
    assert rows == rows[..i + 1] + rows[i + 1..];
    FlatAppend(rows[..i + 1], rows[i + 1..], step);
    ApplyAppend(before, done, ws[..k]);
    assert Flat(rows, step)[..|done| + k] == done + ws[..k];
  }
}
