/** The in-process ingest store (internal/store/memory.go): first-writer-wins tables, a clone-and-swap transaction and
    a switch that makes writes fail. */
module IngestStore {
  import opened Sequences

  datatype PaymentRow = PaymentRow(paymentId: string, orderId: string, amountPaise: int, feePaise: int, taxPaise: int,
                                   currency: string, paymentMethod: string, status: string, capturedAt: Option<int>,
                                   sourceEventAt: int)

  datatype SettlementRow = SettlementRow(settlementId: string, entityId: string, lineType: string,
                                         paymentMethod: string, creditPaise: int, debitPaise: int, feePaise: int,
                                         taxPaise: int, settledAt: int)

  datatype BankRow = BankRow(referenceId: string, creditPaise: int, bookedAt: int)

  datatype LedgerRow = LedgerRow(referenceId: string, amountPaise: int, bookedAt: int)

  datatype RawEvent = RawEvent(source: string, externalId: string, eventType: string, key: string, payload: string,
                               receivedAt: int)

  /** The typed row of a record; the record has four pointers, of which the first that is set counts. */
  datatype Normalized = Pay(payment: PaymentRow)
                      | Settle(settlement: SettlementRow)
                      | Bank(bank: BankRow)
                      | Ledger(ledger: LedgerRow)
                      | Missing

  datatype Record = Record(source: string, externalId: string, eventType: string, key: string, payload: string,
                           row: Normalized)

  datatype Tables = Tables(raw: map<string, RawEvent>, payments: map<string, PaymentRow>,
                           settlements: map<string, SettlementRow>, banks: map<string, BankRow>,
                           ledgers: map<string, LedgerRow>)

  const EMPTY := Tables(map[], map[], map[], map[], map[])

  function SettlementKey(line: SettlementRow): string { line.settlementId + "|" + line.entityId + "|" + line.lineType }

  /** Identifiers and line type without the separator are told apart by the key. */
  lemma SettlementKeyIdentifies(a: SettlementRow, b: SettlementRow)
    requires '|' !in a.settlementId && '|' !in b.settlementId && '|' !in a.entityId && '|' !in b.entityId
    ensures SettlementKey(a) == SettlementKey(b) <==>
      a.settlementId == b.settlementId && a.entityId == b.entityId && a.lineType == b.lineType
  {
    SettlementKeyParts(a);
    SettlementKeyParts(b);
    if SettlementKey(a) == SettlementKey(b) {
      hide SettlementKey;
      SplitAtFirst('|', a.settlementId, a.entityId + (['|'] + a.lineType),
                   b.settlementId, b.entityId + (['|'] + b.lineType));
      SplitAtFirst('|', a.entityId, a.lineType, b.entityId, b.lineType);
    }
  }

  lemma SettlementKeyParts(l: SettlementRow)
    ensures SettlementKey(l) == l.settlementId + (['|'] + (l.entityId + (['|'] + l.lineType)))
  {
  }

  function FirstWins<V>(rows: map<string, V>, key: string, row: V): map<string, V>
  {
    if key in rows then rows else rows[key := row]
  }

  /** The typed row goes to its own table, unless its identity is taken. */
  function LandRow(t: Tables, row: Normalized): Tables
  {
    match row
    case Pay(p) => t.(payments := FirstWins(t.payments, p.paymentId, p))
    case Settle(l) => t.(settlements := FirstWins(t.settlements, SettlementKey(l), l))
    case Bank(l) => t.(banks := FirstWins(t.banks, l.referenceId, l))
    case Ledger(l) => t.(ledgers := FirstWins(t.ledgers, l.referenceId, l))
    case Missing => t
  }

  function EventOf(r: Record, now: int): RawEvent
  {
    RawEvent(r.source, r.externalId, r.eventType, r.key, r.payload, now)
  }

  /** What committing one record does to the tables. */
  function Land(t: Tables, r: Record, now: int): Tables { LandRow(t.(raw := t.raw[r.key := EventOf(r, now)]), r.row) }

  // ---------------------------------------------------------------- transaction

  datatype Error = NoError | DuplicateKey | WriteFailed | NoRow

  datatype Memory = Memory(tables: Tables, failAfter: int, writes: int)

  /** What one transaction makes of the store: all of it or nothing, the counters included. */
  function Tx(m: Memory, r: Record, now: int): (Memory, Error)
  {
    if m.failAfter != 0 && m.writes + 1 > m.failAfter then (m, WriteFailed)
    else if r.key in m.tables.raw then (m, DuplicateKey)
    else if r.row.Missing? then (m, NoRow)
    else if m.failAfter != 0 && m.writes + 2 > m.failAfter then (m, WriteFailed)
    else (Memory(Land(m.tables, r, now), m.failAfter, if m.failAfter == 0 then m.writes else m.writes + 2), NoError)
  }

  class MemoryStore {
    var raw: map<string, RawEvent>
    var payments: map<string, PaymentRow>
    var settlements: map<string, SettlementRow>
    var banks: map<string, BankRow>
    var ledgers: map<string, LedgerRow>
    var failAfter: int
    var writes: int

    function Value(): Memory
      reads this
    {
      Memory(Tables(raw, payments, settlements, banks, ledgers), failAfter, writes)
    }

    constructor ()
      ensures Value() == Memory(EMPTY, 0, 0)
    {
      raw, payments, settlements, banks, ledgers := map[], map[], map[], map[], map[];
      failAfter, writes := 0, 0;
    }

    method FailAfterNWrites(n: int)
      modifies this
      ensures Value() == Memory(old(Value()).tables, n, 0)
    {
      failAfter, writes := n, 0;
    }

    method Clone() returns (clone: MemoryStore)
      ensures fresh(clone) && clone.Value() == Value()
    {
      clone := new MemoryStore();
      clone.failAfter, clone.writes := failAfter, writes;
      clone.raw, clone.payments, clone.settlements := raw, payments, settlements;
      clone.banks, clone.ledgers := banks, ledgers;
    }

    /** hitFaultLocked. */
    method HitFault() returns (err: Error)
      modifies this`writes
      ensures writes == old(writes) + if failAfter == 0 then 0 else 1
      ensures err == if failAfter != 0 && writes > failAfter then WriteFailed else NoError
    {
      if failAfter == 0 { return NoError; }
      writes := writes + 1;
      err := if writes > failAfter then WriteFailed else NoError;
    }

    method InsertRawEvent(event: RawEvent) returns (err: Error)
      modifies this`writes, this`raw
      ensures writes == old(writes) + if failAfter == 0 then 0 else 1
      ensures err ==
        if failAfter != 0 && writes > failAfter then WriteFailed else if event.key in old(raw) then DuplicateKey
        else NoError
      ensures raw == if err.NoError? then old(raw)[event.key := event] else old(raw)
    {
      err := HitFault();
      if err != NoError { return; }
      if event.key in raw { return DuplicateKey; }
      raw := raw[event.key := event];
    }

    /** InsertPayment, InsertSettlement, InsertBankLine and InsertLedgerLine, chosen by insertNormalized. */
    method InsertNormalized(row: Normalized) returns (err: Error)
      modifies this
      ensures failAfter == old(failAfter)
      ensures writes == old(writes) + if row.Missing? || failAfter == 0 then 0 else 1
      ensures err ==
        if row.Missing? then NoRow else if failAfter != 0 && writes > failAfter then WriteFailed else NoError
      ensures Value().tables == if err.NoError? then LandRow(old(Value()).tables, row) else old(Value()).tables
    {
      if row.Missing? { return NoRow; }
      err := HitFault();
      if err != NoError { return; }
      match row
      case Pay(p) => if p.paymentId !in payments { payments := payments[p.paymentId := p]; }
      case Settle(l) => if SettlementKey(l) !in settlements { settlements := settlements[SettlementKey(l) := l]; }
      case Bank(l) => if l.referenceId !in banks { banks := banks[l.referenceId := l]; }
      case Ledger(l) => if l.referenceId !in ledgers { ledgers := ledgers[l.referenceId := l]; }
    }

    /** InTx around the two inserts of persist: they work on a clone, which replaces the store only on success. */
    method InTx(r: Record, now: int) returns (err: Error)
      modifies this
      ensures (Value(), err) == Tx(old(Value()), r, now)
    {
      var working := Clone();
      err := working.InsertRawEvent(EventOf(r, now));
      if err == NoError { err := working.InsertNormalized(r.row); }
      if err != NoError { return; }
      raw, payments, settlements := working.raw, working.payments, working.settlements;
      banks, ledgers := working.banks, working.ledgers;
      writes, failAfter := working.writes, working.failAfter;
    }
  }

  // ---------------------------------------------------------------- the fault switch

  function TxAll(m: Memory, rs: seq<Record>, now: int): Memory
    decreases |rs|
  {
    if rs == [] then m else TxAll(Tx(m, rs[0], now).0, rs[1..], now)
  }

  function NewKeys(t: Tables, u: Tables): set<string> { u.raw.Keys - t.raw.Keys }

  /** No fault is set, or two more writes are allowed. */
  predicate WritesLeft(m: Memory) { m.failAfter == 0 || m.writes + 2 <= m.failAfter }

  /** A transaction commits one new record or leaves the store, its counters included, as it was. */
  lemma TxCommitsOrNothing(m: Memory, r: Record, now: int)
    ensures var (next, err) := Tx(m, r, now);
      && next.failAfter == m.failAfter
      && (!err.NoError? ==> next == m)
      && (err.DuplicateKey? ==> r.key in m.tables.raw)
      && (err.NoError? <==> r.key !in m.tables.raw && !r.row.Missing? && WritesLeft(m))
      && (err.NoError? ==> r.key !in m.tables.raw && next.tables.raw.Keys == m.tables.raw.Keys + {r.key})
      && (err.NoError? && m.failAfter != 0 ==> next.writes == m.writes + 2)
  {
  }

  lemma OneMoreKey(before: set<string>, k: string, after: set<string>)
    requires k !in before && before + {k} <= after
    ensures |after - before| == |after - (before + {k})| + 1
  {
    assert after - before == (after - (before + {k})) + {k};
  }

  /** FailAfterNWrites never resets by itself: a failing transaction throws its write count away with its clone, so
      with the switch at n at most half of n records are ever committed, and once fewer than two writes are left
      no transaction changes the store again. */
  lemma {:induction false} FaultNeverClears(m: Memory, rs: seq<Record>, now: int)
    requires m.failAfter != 0
    ensures var after := TxAll(m, rs, now);
      && 2 * |NewKeys(m.tables, after.tables)| <= after.writes - m.writes
      && (after.writes <= m.failAfter || after == m)
      && after.failAfter == m.failAfter
      && m.tables.raw.Keys <= after.tables.raw.Keys
      && (m.writes + 2 > m.failAfter ==> after == m)
    decreases |rs|
  {
    if rs == [] {
      assert NewKeys(m.tables, m.tables) == {};
    } else {
      var (next, err) := Tx(m, rs[0], now);
      var after := TxAll(m, rs, now);
      TxCommitsOrNothing(m, rs[0], now);
      FaultNeverClears(next, rs[1..], now);
      hide Tx;
      if err.NoError? { OneMoreKey(m.tables.raw.Keys, rs[0].key, after.tables.raw.Keys); }
    }
  }

  // ---------------------------------------------------------------- receive timestamps aside

  function Unstamped(raw: map<string, RawEvent>): map<string, RawEvent> { map k | k in raw :: raw[k].(receivedAt := 0) }

  function Blank(t: Tables): Tables { t.(raw := Unstamped(t.raw)) }

  lemma RowLeavesEvents(t: Tables, row: Normalized, raw: map<string, RawEvent>)
    ensures LandRow(t.(raw := raw), row) == LandRow(t, row).(raw := raw)
  {
  }

  lemma BlankLand(t: Tables, r: Record, now: int)
    ensures Blank(Land(t, r, now)) == Land(Blank(t), r, 0)
    ensures Blank(t).raw.Keys == t.raw.Keys
  {
    var raw := t.raw[r.key := EventOf(r, now)];
    assert Unstamped(raw) == Unstamped(t.raw)[r.key := EventOf(r, 0)];
    RowLeavesEvents(t, r.row, raw);
    RowLeavesEvents(t, r.row, Unstamped(raw));
    hide LandRow;
    hide Unstamped;
  }

  // ---------------------------------------------------------------- raw events and their rows

  /** `rowOf` is what a source's payload normalises to. */
  ghost predicate Parsed(rowOf: (string, string) -> Normalized, r: Record) { r.row == rowOf(r.source, r.payload) }

  /** The identity of `row` is taken in its table. */
  predicate Held(t: Tables, row: Normalized)
  {
    match row
    case Pay(p) => p.paymentId in t.payments
    case Settle(l) => SettlementKey(l) in t.settlements
    case Bank(l) => l.referenceId in t.banks
    case Ledger(l) => l.referenceId in t.ledgers
    case Missing => false
  }

  /** `row` itself is in its table. */
  predicate Stored(t: Tables, row: Normalized)
  {
    match row
    case Pay(p) => p.paymentId in t.payments && t.payments[p.paymentId] == p
    case Settle(l) => SettlementKey(l) in t.settlements && t.settlements[SettlementKey(l)] == l
    case Bank(l) => l.referenceId in t.banks && t.banks[l.referenceId] == l
    case Ledger(l) => l.referenceId in t.ledgers && t.ledgers[l.referenceId] == l
    case Missing => false
  }

  /** The rows belong to one table and have the same key there. */
  predicate SameIdentity(x: Normalized, y: Normalized)
  {
    match x
    case Pay(p) => y.Pay? && y.payment.paymentId == p.paymentId
    case Settle(l) => y.Settle? && SettlementKey(y.settlement) == SettlementKey(l)
    case Bank(l) => y.Bank? && y.bank.referenceId == l.referenceId
    case Ledger(l) => y.Ledger? && y.ledger.referenceId == l.referenceId
    case Missing => y.Missing?
  }

  lemma FirstWinsCommutesIff<V>(rows: map<string, V>, k: string, v: V, j: string, w: V)
    ensures FirstWins(FirstWins(rows, k, v), j, w) == FirstWins(FirstWins(rows, j, w), k, v)
       <==> !(k == j && v != w && k !in rows)
  {
    if k != j && k !in rows && j !in rows { assert rows[k := v][j := w] == rows[j := w][k := v]; }
    if k == j && v != w && k !in rows { assert rows[k := v][k] != rows[k := w][k]; }
  }

  /** Two rows can land in either order unless they differ and the first to come takes the identity of both. */
  lemma LandRowsCommuteIff(t: Tables, x: Normalized, y: Normalized)
    requires !x.Missing? && !y.Missing?
    ensures LandRow(LandRow(t, x), y) == LandRow(LandRow(t, y), x) <==> !(x != y && SameIdentity(x, y) && !Held(t, x))
  {
    hide FirstWins;
    hide SettlementKey;
    match (x, y)
    case (Pay(p), Pay(q)) => FirstWinsCommutesIff(t.payments, p.paymentId, p, q.paymentId, q);
    case (Settle(p), Settle(q)) => FirstWinsCommutesIff(t.settlements, SettlementKey(p), p, SettlementKey(q), q);
    case (Bank(p), Bank(q)) => FirstWinsCommutesIff(t.banks, p.referenceId, p, q.referenceId, q);
    case (Ledger(p), Ledger(q)) => FirstWinsCommutesIff(t.ledgers, p.referenceId, p, q.referenceId, q);
    case _ =>
  }

  lemma FirstWinsChanges<V>(rows: map<string, V>, k: string, v: V)
    ensures FirstWins(rows, k, v) == rows <==> k in rows
    ensures k !in rows ==> FirstWins(rows, k, v).Keys == rows.Keys + {k} && FirstWins(rows, k, v)[k] == v
  {
    if k !in rows { assert k in rows[k := v].Keys; }
  }

  /** Landing either row gives the same tables exactly when they are the same or both identities are taken. */
  lemma LandRowsAgreeIff(t: Tables, x: Normalized, y: Normalized)
    requires !x.Missing? && !y.Missing?
    ensures LandRow(t, x) == LandRow(t, y) <==> x == y || (Held(t, x) && Held(t, y))
  {
    LandRowShows(t, x);
    LandRowShows(t, y);
    if LandRow(t, x) == LandRow(t, y) && !(Held(t, x) && Held(t, y)) && x != y {
      NewRowShows(t, x, y);
      NewRowShows(t, y, x);
      assert false;
    }
  }

  /** A row changes the tables exactly when its identity is new, and is then stored. */
  lemma LandRowShows(t: Tables, x: Normalized)
    requires !x.Missing?
    ensures LandRow(t, x) == t <==> Held(t, x)
    ensures !Held(t, x) ==> Stored(LandRow(t, x), x)
  {
    match x
    case Pay(p) => FirstWinsChanges(t.payments, p.paymentId, p);
    case Settle(l) => FirstWinsChanges(t.settlements, SettlementKey(l), l);
    case Bank(l) => FirstWinsChanges(t.banks, l.referenceId, l);
    case Ledger(l) => FirstWinsChanges(t.ledgers, l.referenceId, l);
  }

  /** Another row does not put `x` into the tables. */
  lemma NewRowShows(t: Tables, x: Normalized, y: Normalized)
    requires !x.Missing? && !y.Missing? && x != y && !Held(t, x)
    ensures !Stored(LandRow(t, y), x)
  {
  }

  ghost predicate EventHasRow(rowOf: (string, string) -> Normalized, t: Tables, k: string)
    requires k in t.raw
  {
    t.raw[k].key == k && Held(t, rowOf(t.raw[k].source, t.raw[k].payload))
  }

  ghost predicate RowHasEvent(rowOf: (string, string) -> Normalized, t: Tables, row: Normalized)
  {
    exists k :: k in t.raw && rowOf(t.raw[k].source, t.raw[k].payload) == row
  }

  /** Every raw event has a row of its identity, and every row comes from a raw event. */
  ghost predicate Paired(rowOf: (string, string) -> Normalized, t: Tables)
  {
    && (forall k :: k in t.raw ==> EventHasRow(rowOf, t, k))
    && (forall row :: Stored(t, row) ==> RowHasEvent(rowOf, t, row))
  }

  lemma LandHolds(t: Tables, r: Record, now: int)
    requires !r.row.Missing?
    ensures Held(Land(t, r, now), r.row)
    ensures forall row :: Held(t, row) ==> Held(Land(t, r, now), row)
    ensures forall row :: Stored(Land(t, r, now), row) ==> row == r.row || Stored(t, row)
    ensures Stored(Land(t, r, now), r.row) <==> !Held(t, r.row) || Stored(t, r.row)
  {
  }

  /** A raw event and its row are committed together. */
  lemma LandKeepsPaired(rowOf: (string, string) -> Normalized, t: Tables, r: Record, now: int)
    requires Paired(rowOf, t) && Parsed(rowOf, r) && !r.row.Missing? && r.key !in t.raw
    ensures Paired(rowOf, Land(t, r, now))
  {
    var u := Land(t, r, now);
    LandHolds(t, r, now);
    assert u.raw == t.raw[r.key := EventOf(r, now)];
    hide Held;
    hide Stored;
    hide Land;
    forall k | k in u.raw ensures EventHasRow(rowOf, u, k) {
      assert k != r.key ==> EventHasRow(rowOf, t, k);
    }
    forall row | Stored(u, row) ensures RowHasEvent(rowOf, u, row) {
      if row == r.row {
        assert r.key in u.raw && rowOf(u.raw[r.key].source, u.raw[r.key].payload) == row;
      } else {
        assert RowHasEvent(rowOf, t, row);
        var k :| k in t.raw && rowOf(t.raw[k].source, t.raw[k].payload) == row;
        assert u.raw[k] == t.raw[k];
      }
    }
  }

  // ---------------------------------------------------------------- tables side by side

  predicate SubMap<V(==)>(a: map<string, V>, b: map<string, V>) { forall k :: k in a ==> k in b && b[k] == a[k] }

  /** Every entry of `t` is in `u`. */
  predicate Within(t: Tables, u: Tables)
  {
    && SubMap(t.raw, u.raw)
    && SubMap(t.payments, u.payments)
    && SubMap(t.settlements, u.settlements)
    && SubMap(t.banks, u.banks)
    && SubMap(t.ledgers, u.ledgers)
  }

  predicate AgreeMap<V(==)>(a: map<string, V>, b: map<string, V>) { forall k :: k in a && k in b ==> a[k] == b[k] }

  /** Where both have an entry, `t` and `u` have the same. */
  predicate Agree(t: Tables, u: Tables)
  {
    && AgreeMap(t.raw, u.raw)
    && AgreeMap(t.payments, u.payments)
    && AgreeMap(t.settlements, u.settlements)
    && AgreeMap(t.banks, u.banks)
    && AgreeMap(t.ledgers, u.ledgers)
  }

  function Merge(t: Tables, u: Tables): Tables
  {
    Tables(t.raw + u.raw, t.payments + u.payments, t.settlements + u.settlements, t.banks + u.banks,
           t.ledgers + u.ledgers)
  }

  lemma AgreeingMapsMerge<V>(a: map<string, V>, b: map<string, V>)
    requires AgreeMap(a, b)
    ensures a + b == b + a
  {
  }

  lemma AgreeingTablesMerge(t: Tables, u: Tables)
    requires Agree(t, u)
    ensures Merge(t, u) == Merge(u, t)
  {
    AgreeingMapsMerge(t.raw, u.raw);
    AgreeingMapsMerge(t.payments, u.payments);
    AgreeingMapsMerge(t.settlements, u.settlements);
    AgreeingMapsMerge(t.banks, u.banks);
    AgreeingMapsMerge(t.ledgers, u.ledgers);
  }

  lemma WithinTrans(t: Tables, u: Tables, v: Tables)
    requires Within(t, u) && Within(u, v)
    ensures Within(t, v)
  {
  }

  /** Parts of the same tables agree. */
  lemma PartsAgree(t: Tables, u: Tables, whole: Tables)
    requires Within(t, whole) && Within(u, whole)
    ensures Agree(t, u)
  {
  }

  lemma PartAgrees(t: Tables, part: Tables, u: Tables)
    requires Agree(t, u) && Within(part, u)
    ensures Agree(t, part)
  {
  }

  lemma LandWithin(t: Tables, r: Record, now: int)
    requires r.key !in t.raw
    ensures Within(t, Land(t, r, now))
  {
  }

  lemma FirstWinsMerge<V>(a: map<string, V>, b: map<string, V>, k: string, v: V)
    requires AgreeMap(b, FirstWins(a, k, v))
    ensures FirstWins(a + b, k, v) == FirstWins(a, k, v) + b
  {
    if k !in a && k !in b { assert (a + b)[k := v] == a[k := v] + b; }
    if k !in a && k in b { assert a + b == a[k := v] + b; }
  }

  /** Landing a row beside other tables that agree with the outcome. */
  lemma LandRowMerge(v: Tables, u: Tables, row: Normalized)
    requires Agree(u, LandRow(v, row))
    ensures LandRow(Merge(v, u), row) == Merge(LandRow(v, row), u)
  {
    hide FirstWins;
    hide AgreeMap;
    hide SettlementKey;
    match row
    case Pay(p) => FirstWinsMerge(v.payments, u.payments, p.paymentId, p);
    case Settle(l) => FirstWinsMerge(v.settlements, u.settlements, SettlementKey(l), l);
    case Bank(l) => FirstWinsMerge(v.banks, u.banks, l.referenceId, l);
    case Ledger(l) => FirstWinsMerge(v.ledgers, u.ledgers, l.referenceId, l);
    case Missing =>
  }

  lemma HeldInMerge(v: Tables, u: Tables, row: Normalized)
    requires Held(u, row)
    ensures LandRow(Merge(v, u), row) == Merge(v, u)
  {
  }

  lemma BlankPaired(rowOf: (string, string) -> Normalized, t: Tables)
    requires Paired(rowOf, t)
    ensures Paired(rowOf, Blank(t))
  {
    var u := Blank(t);
    forall k | k in u.raw ensures EventHasRow(rowOf, u, k) {
      assert EventHasRow(rowOf, t, k);
    }
    forall row | Stored(u, row) ensures RowHasEvent(rowOf, u, row) {
      assert Stored(t, row);
      assert RowHasEvent(rowOf, t, row);
      var k :| k in t.raw && rowOf(t.raw[k].source, t.raw[k].payload) == row;
      assert k in u.raw && rowOf(u.raw[k].source, u.raw[k].payload) == row;
    }
  }
}
