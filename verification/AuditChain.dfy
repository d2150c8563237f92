/** The audit hash chain (internal/audit/hash.go), the transaction that extends it
    (internal/store/mysql.go) and the loader that reads it back (internal/store/audit_mysql.go).
    Hash, time format, JSON and the JSON column are parameters with stated assumptions. */
module AuditChain {
  import opened Sequences
  import opened Remote

  /** `column` is what a JSON column returns for a stored text. */
  datatype Codec<!P> = Codec(marshal: P -> Option<string>, unmarshal: string -> Option<P>, column: string -> string,
                             format: int -> string, hash: string -> string)

  /** Hashes are 64 characters of hexadecimal, and formatted times hold no separator. */
  ghost predicate Sound<P>(c: Codec<P>)
  {
    && (forall x :: |c.hash(x)| == 64 && '|' !in c.hash(x))
    && (forall t :: '|' !in c.format(t))
  }

  /** Storing a payload keeps what its decoded value marshals to. */
  ghost predicate Stable<P>(c: Codec<P>)
  {
    forall raw {:trigger c.column(raw)} :: c.unmarshal(raw).Some? ==>
      && c.unmarshal(c.column(raw)).Some?
      && c.marshal(c.unmarshal(c.column(raw)).value) == c.marshal(c.unmarshal(raw).value)
  }

  datatype Entry<P> = Entry(eventType: string, payload: P, previousHash: string, createdAt: int, rowHash: string)

  function Encode(previousHash: string, eventType: string, time: string, payload: string): string
  {
    previousHash + ("|" + (eventType + ("|" + (time + ("|" + payload)))))
  }

  function Digest<P>(c: Codec<P>, previousHash: string, eventType: string, createdAt: int, payload: string): string
  {
    c.hash(Encode(previousHash, eventType, c.format(createdAt), payload))
  }

  /** Seal. */
  function Seal<P>(c: Codec<P>, e: Entry<P>): Option<Entry<P>>
  {
    if c.marshal(e.payload).None? then None
    else Some(e.(rowHash := Digest(c, e.previousHash, e.eventType, e.createdAt, c.marshal(e.payload).value)))
  }

  // ---------------------------------------------------------------- Verify

  predicate Sealed<P>(c: Codec<P>, e: Entry<P>)
  {
    && c.marshal(e.payload).Some?
    && e.rowHash == Digest(c, e.previousHash, e.eventType, e.createdAt, c.marshal(e.payload).value)
  }

  function Tail<P>(es: seq<Entry<P>>): string { if es == [] then "" else es[|es| - 1].rowHash }

  /** Every entry is sealed and names its predecessor. */
  predicate Chained<P>(c: Codec<P>, es: seq<Entry<P>>)
  {
    forall i :: 0 <= i < |es| ==> Linked(c, es, i)
  }

  predicate Linked<P>(c: Codec<P>, es: seq<Entry<P>>, i: nat)
    requires i < |es|
  {
    Sealed(c, es[i]) && es[i].previousHash == Tail(es[..i])
  }

  /** Verify: -1 exactly on a chain, otherwise the first entry that breaks it. */
  method Verify<P(==)>(c: Codec<P>, entries: seq<Entry<P>>) returns (index: int)
    ensures index == -1 || 0 <= index < |entries|
    ensures index == -1 <==> Chained(c, entries)
    ensures index >= 0 ==> Chained(c, entries[..index]) && !Chained(c, entries[..index + 1])
  {
    var previous := "";
    for i := 0 to |entries|
      invariant previous == Tail(entries[..i])
      invariant Chained(c, entries[..i])
    {
      var entry := entries[i];
      assert entries[..i + 1] == entries[..i] + [entry];
      ChainedSnoc(c, entries[..i], entry);
      PrefixChained(c, entries, i + 1);
      if entry.previousHash != previous { return i; }
      var sealed := Seal(c, entry.(rowHash := ""));
      if sealed.None? || sealed.value.rowHash != entry.rowHash { return i; }
      previous := entry.rowHash;
    }
    assert entries[..|entries|] == entries;
    return -1;
  }

  lemma PrefixChained<P>(c: Codec<P>, es: seq<Entry<P>>, k: nat)
    requires k <= |es|
    ensures Chained(c, es) ==> Chained(c, es[..k])
  {
    if Chained(c, es) {
      forall i | 0 <= i < k ensures Linked(c, es[..k], i) {
        assert Linked(c, es, i) && es[..k][..i] == es[..i];
      }
    }
  }

  lemma ChainedSnoc<P>(c: Codec<P>, es: seq<Entry<P>>, e: Entry<P>)
    ensures Chained(c, es + [e]) <==> Chained(c, es) && Sealed(c, e) && e.previousHash == Tail(es)
  {
    var all := es + [e];
    assert all[..|es|] == es && all[|es|] == e;
    PrefixChained(c, all, |es|);
    if Chained(c, all) {
      assert Linked(c, all, |es|);
    } else if Chained(c, es) && Sealed(c, e) && e.previousHash == Tail(es) {
      forall i | 0 <= i < |all| ensures Linked(c, all, i) {
        if i < |es| { assert Linked(c, es, i) && all[..i] == es[..i]; }
      }
    }
  }

  // ---------------------------------------------------------------- binding

  /** The joined encoding is injective once hash, event type and time hold no separator; the payload may. */
  lemma EncodeInjective(p: string, e: string, t: string, x: string, q: string, f: string, u: string, y: string)
    requires '|' !in p && '|' !in e && '|' !in t && '|' !in q && '|' !in f && '|' !in u
    requires Encode(p, e, t, x) == Encode(q, f, u, y)
    ensures p == q && e == f && t == u && x == y
  {
    SplitAtFirst('|', p, e + ("|" + (t + ("|" + x))), q, f + ("|" + (u + ("|" + y))));
    SplitAtFirst('|', e, t + ("|" + x), f, u + ("|" + y));
    SplitAtFirst('|', t, x, u, y);
  }

  /** The two entries record the same event, formatted time and marshalled payload. */
  predicate SameContent<P>(c: Codec<P>, e: Entry<P>, f: Entry<P>)
  {
    && e.eventType == f.eventType
    && c.format(e.createdAt) == c.format(f.createdAt)
    && c.marshal(e.payload) == c.marshal(f.payload)
  }

  predicate PlainEvents<P>(es: seq<Entry<P>>) { forall i :: 0 <= i < |es| ==> '|' !in es[i].eventType }

  predicate Collision<P>(c: Codec<P>, x: string, y: string) { x != y && c.hash(x) == c.hash(y) }

  lemma TailShape<P>(c: Codec<P>, es: seq<Entry<P>>)
    requires Sound(c) && Chained(c, es)
    ensures '|' !in Tail(es) && |Tail(es)| == if es == [] then 0 else 64
  {
    if es != [] { assert Linked(c, es, |es| - 1); }
  }

  /** What the hash of an entry is taken over. */
  function HashInput<P>(c: Codec<P>, e: Entry<P>): string
    requires c.marshal(e.payload).Some?
  {
    Encode(e.previousHash, e.eventType, c.format(e.createdAt), c.marshal(e.payload).value)
  }

  /** Both entries are sealed with the same hash, over different inputs. */
  predicate Colliding<P>(c: Codec<P>, e: Entry<P>, f: Entry<P>)
  {
    && Sealed(c, e)
    && Sealed(c, f)
    && e.rowHash == f.rowHash
    && HashInput(c, e) != HashInput(c, f)
  }

  /** Equal last hashes force equal last contents and equal predecessors, or these two entries collide. */
  lemma BindLast<P>(c: Codec<P>, e: Entry<P>, f: Entry<P>)
    requires Sound(c) && Sealed(c, e) && Sealed(c, f) && e.rowHash == f.rowHash
    requires '|' !in e.previousHash && '|' !in f.previousHash && '|' !in e.eventType && '|' !in f.eventType
    ensures Colliding(c, e, f) <==> !(SameContent(c, e, f) && e.previousHash == f.previousHash)
  {
    if HashInput(c, e) == HashInput(c, f) {
      var m, n := c.marshal(e.payload).value, c.marshal(f.payload).value;
      hide Encode;
      EncodeInjective(e.previousHash, e.eventType, c.format(e.createdAt), m,
                      f.previousHash, f.eventType, c.format(f.createdAt), n);
    }
  }

  /** The entries `k` from the end record the same. */
  predicate AgreeAt<P>(c: Codec<P>, es: seq<Entry<P>>, fs: seq<Entry<P>>, k: nat)
    requires k < |es| && k < |fs|
  {
    SameContent(c, es[|es| - 1 - k], fs[|fs| - 1 - k])
  }

  /** The two chains agree on their last `n` entries. */
  predicate AgreeFromEnd<P>(c: Codec<P>, es: seq<Entry<P>>, fs: seq<Entry<P>>, n: nat)
  {
    n <= |es| && n <= |fs| && forall k :: 0 <= k < n ==> AgreeAt(c, es, fs, k)
  }

  /** Two accepted chains with the same last hash agree entry by entry, or, counted from the end, entries `n` of the
      two chains collide and everything after them agrees. */
  lemma {:induction false} ChainBinding<P>(c: Codec<P>, es: seq<Entry<P>>, fs: seq<Entry<P>>) returns (n: nat)
    requires Sound(c) && Chained(c, es) && Chained(c, fs) && PlainEvents(es) && PlainEvents(fs)
    requires Tail(es) == Tail(fs)
    ensures AgreeFromEnd(c, es, fs, n)
    ensures (n == |es| == |fs|)
      || (n < |es| && n < |fs| && Colliding(c, es[|es| - 1 - n], fs[|fs| - 1 - n]))
    decreases |es|
  {
    n := 0;
    TailShape(c, es);
    TailShape(c, fs);
    hide Sound;
    hide Sealed;
    hide SameContent;
    hide Colliding;
    if es != [] {
      var e, f, es', fs' := es[|es| - 1], fs[|fs| - 1], es[..|es| - 1], fs[..|fs| - 1];
      assert es == es' + [e] && fs == fs' + [f];
      ChainedSnoc(c, es', e);
      ChainedSnoc(c, fs', f);
      TailShape(c, es');
      TailShape(c, fs');
      hide Chained;
      BindLast(c, e, f);
      if !Colliding(c, e, f) {
        var m := ChainBinding(c, es', fs');
        n := m + 1;
        AgreeOneMore(c, es, fs, m);
      }
    }
  }

  lemma AgreeOneMore<P>(c: Codec<P>, es: seq<Entry<P>>, fs: seq<Entry<P>>, m: nat)
    requires es != [] && fs != [] && AgreeFromEnd(c, es[..|es| - 1], fs[..|fs| - 1], m)
    requires SameContent(c, es[|es| - 1], fs[|fs| - 1])
    ensures AgreeFromEnd(c, es, fs, m + 1)
  {
    hide SameContent;
    var es', fs' := es[..|es| - 1], fs[..|fs| - 1];
    forall k | 0 <= k < m + 1 ensures AgreeAt(c, es, fs, k) {
      if k > 0 { assert AgreeAt(c, es', fs', k - 1); }
    }
  }

  /** A history with another number of entries, or rewritten at entry `i`, that still verifies against a remembered
      last hash holds an entry sealed over another input than its counterpart with the very same hash; in a history
      of the same length it is entry `i` or a later one. */
  lemma TamperingNeedsCollision<P>(c: Codec<P>, es: seq<Entry<P>>, fs: seq<Entry<P>>, i: nat) returns (n: nat)
    requires Sound(c) && Chained(c, es) && Chained(c, fs) && PlainEvents(es) && PlainEvents(fs)
    requires Tail(es) == Tail(fs)
    requires |es| != |fs| || (i < |es| && !SameContent(c, es[i], fs[i]))
    ensures n < |es| && n < |fs| && Colliding(c, es[|es| - 1 - n], fs[|fs| - 1 - n])
    ensures |es| == |fs| ==> i <= |es| - 1 - n
  {
    n := ChainBinding(c, es, fs);
    hide Colliding;
    hide SameContent;
    if |es| == |fs| { assert !AgreeAt(c, es, fs, |es| - 1 - i); }
  }

  // ---------------------------------------------------------------- storage round trip

  /** time.Truncate(time.Microsecond), in nanoseconds. */
  function Truncate(t: int): int { t - t % 1000 }

  /** DATETIME(6) rounds to whole microseconds. */
  function StoreTime(t: int): int { (t + 500) / 1000 * 1000 }

  /** The truncated timestamp survives storage; an untruncated one does exactly when it is a whole microsecond. */
  lemma TimestampRoundTrip(t: int)
    ensures StoreTime(Truncate(t)) == Truncate(t)
    ensures StoreTime(t) == t <==> t % 1000 == 0
    ensures StoreTime(t) % 1000 == 0 && -500 <= t - StoreTime(t) < 500
  {
    assert Truncate(t) == t / 1000 * 1000;
    assert (Truncate(t) + 500) / 1000 == t / 1000;
  }

  /** A row of audit_log; `previous` is NULL on the first. */
  datatype Row = Row(eventType: string, payload: string, previous: Option<string>, rowHash: string, createdAt: int)

  datatype Request = Request(eventType: string, payload: string, createdAt: int)

  /** LoadAuditEntries on one row. */
  function Reload<P>(c: Codec<P>, r: Row): Option<Entry<P>>
  {
    if c.unmarshal(r.payload).None? then None
    else
      var previousHash := if r.previous.Some? then r.previous.value else "";
      Some(Entry(r.eventType, c.unmarshal(r.payload).value, previousHash, r.createdAt, r.rowHash))
  }

  predicate Readable<P>(c: Codec<P>, log: seq<Row>) { forall i :: 0 <= i < |log| ==> c.unmarshal(log[i].payload).Some? }

  function ReloadAll<P>(c: Codec<P>, log: seq<Row>): (es: seq<Entry<P>>)
    requires Readable(c, log)
    ensures |es| == |log|
    ensures forall i :: 0 <= i < |log| ==> Some(es[i]) == Reload(c, log[i])
  {
    if log == [] then [] else ReloadAll(c, log[..|log| - 1]) + [Reload(c, log[|log| - 1]).value]
  }

  lemma ReloadSnoc<P>(c: Codec<P>, log: seq<Row>, r: Row)
    requires Readable(c, log) && c.unmarshal(r.payload).Some?
    ensures Readable(c, log + [r]) && ReloadAll(c, log + [r]) == ReloadAll(c, log) + [Reload(c, r).value]
    ensures Tail(ReloadAll(c, log + [r])) == r.rowHash
  {
    assert (log + [r])[..|log|] == log;
  }

  function LastHash(log: seq<Row>): Option<string> { if log == [] then None else Some(log[|log| - 1].rowHash) }

  /** The row WriteAuditEntry inserts after reading `previous`; None when the payload does not decode or marshal. */
  function SealRow<P>(c: Codec<P>, previous: Option<string>, q: Request): Option<Row>
  {
    var decoded := c.unmarshal(q.payload);
    if decoded.None? then None
    else
      var createdAt := Truncate(q.createdAt);
      var sealed :=
        Seal(c, Entry(q.eventType, decoded.value, if previous.Some? then previous.value else "", createdAt, ""));
      if sealed.None? then None
      else Some(Row(q.eventType, c.column(q.payload), previous, sealed.value.rowHash, StoreTime(createdAt)))
  }

  /** The entry records the request: its event type, its time to the microsecond below, its decoded payload. */
  ghost predicate Records<P>(c: Codec<P>, e: Entry<P>, q: Request)
  {
    && e.eventType == q.eventType
    && 0 <= q.createdAt - e.createdAt < 1000
    && e.createdAt % 1000 == 0
    && c.unmarshal(q.payload).Some?
    && c.marshal(e.payload) == c.marshal(c.unmarshal(q.payload).value)
  }

  /** The row that is inserted reloads to an entry that records the request and names the hash read before. */
  lemma SealedRowRecords<P>(c: Codec<P>, previous: Option<string>, q: Request)
    requires Stable(c) && SealRow(c, previous, q).Some?
    ensures var e := Reload(c, SealRow(c, previous, q).value);
      && e.Some?
      && Records(c, e.value, q)
      && e.value.previousHash == (if previous.Some? then previous.value else "")
      && Sealed(c, e.value)
  {
    TruncateRounds(q.createdAt);
    hide Truncate;
    hide StoreTime;
    hide Digest;
    assert c.unmarshal(q.payload).Some?;
  }

  /** Truncating goes down to a whole microsecond, which storage keeps. */
  lemma TruncateRounds(t: int)
    ensures 0 <= t - Truncate(t) < 1000 && Truncate(t) % 1000 == 0 && StoreTime(Truncate(t)) == Truncate(t)
  {
    TimestampRoundTrip(t);
  }

  /** The log reloads into a chain that Verify accepts, without repeated row hashes. */
  ghost predicate GoodLog<P>(c: Codec<P>, log: seq<Row>)
  {
    && Readable(c, log)
    && Chained(c, ReloadAll(c, log))
    && (forall i, j :: 0 <= i < j < |log| ==> log[i].rowHash != log[j].rowHash)
    && (forall i :: 0 <= i < |log| ==> LinkedRow(log, i))
  }

  predicate LinkedRow(log: seq<Row>, i: nat)
    requires i < |log|
  {
    log[i].previous == LastHash(log[..i])
  }

  lemma TailReloads<P>(c: Codec<P>, log: seq<Row>)
    requires Readable(c, log)
    ensures Tail(ReloadAll(c, log)) == if log == [] then "" else LastHash(log).value
  {
  }

  /** A row sealed against the current last hash extends a good log. */
  lemma SealedRowExtends<P>(c: Codec<P>, log: seq<Row>, q: Request)
    requires Stable(c) && GoodLog(c, log)
    requires SealRow(c, LastHash(log), q).Some?
    requires forall i :: 0 <= i < |log| ==> log[i].rowHash != SealRow(c, LastHash(log), q).value.rowHash
    ensures GoodLog(c, log + [SealRow(c, LastHash(log), q).value])
  {
    var r := SealRow(c, LastHash(log), q).value;
    var all := log + [r];
    assert r.previous == LastHash(log);
    assert all[..|log|] == log;
    SealedRowRecords(c, LastHash(log), q);
    hide SealRow;
    hide Stable;
    hide Sealed;
    hide Records;
    assert c.unmarshal(r.payload).Some?;
    ReloadSnoc(c, log, r);
    TailReloads(c, log);
    ChainedSnoc(c, ReloadAll(c, log), Reload(c, r).value);
    hide Chained;
    hide Reload;
    forall i | 0 <= i < |all| ensures LinkedRow(all, i) {
      if i < |log| { assert LinkedRow(log, i) && all[..i] == log[..i]; }
    }
  }

  /** No two rows of a good log share a predecessor: the chain does not fork. */
  lemma GoodLogIsUnforked<P>(c: Codec<P>, log: seq<Row>, i: nat, j: nat)
    requires GoodLog(c, log) && i < j < |log|
    ensures log[i].previous != log[j].previous
  {
    assert LinkedRow(log, i) && LinkedRow(log, j);
  }

  /** Without the lock on the last row two writers that read the same last hash break the chain. */
  lemma UnlockedWritersFork<P>(c: Codec<P>, log: seq<Row>, q1: Request, q2: Request)
    requires Sound(c) && Stable(c) && GoodLog(c, log)
    requires SealRow(c, LastHash(log), q1).Some? && SealRow(c, LastHash(log), q2).Some?
    requires forall i :: 0 <= i < |log| ==> log[i].rowHash != SealRow(c, LastHash(log), q1).value.rowHash
    ensures var both := log + [SealRow(c, LastHash(log), q1).value] + [SealRow(c, LastHash(log), q2).value];
      Readable(c, both) && !Chained(c, ReloadAll(c, both))
  {
    var r1, r2 := SealRow(c, LastHash(log), q1).value, SealRow(c, LastHash(log), q2).value;
    SealedRowExtends(c, log, q1);
    assert |r1.rowHash| == 64 && c.unmarshal(q2.payload).Some? && c.unmarshal(r2.payload).Some?;
    assert Reload(c, r2).value.previousHash == if log == [] then "" else log[|log| - 1].rowHash;
    hide Sound;
    hide Stable;
    hide SealRow;
    hide Reload;
    hide Chained;
    ReloadSnoc(c, log + [r1], r2);
    ChainedSnoc(c, ReloadAll(c, log + [r1]), Reload(c, r2).value);
    ReloadSnoc(c, log, r1);
  }

  /** Sealing the full-precision time would not survive the reload: the row fails to verify or yields a collision. */
  lemma UntruncatedSealFails<P>(c: Codec<P>, previousHash: string, eventType: string, payload: string, t: int)
    requires t % 1000 != 0
    requires forall a, b :: c.format(a) == c.format(b) ==> a == b
    ensures Digest(c, previousHash, eventType, StoreTime(t), payload) != Digest(c, previousHash, eventType, t, payload)
      || Collision(c, Encode(previousHash, eventType, c.format(StoreTime(t)), payload),
                   Encode(previousHash, eventType, c.format(t), payload))
  {
    TimestampRoundTrip(t);
    SameTime(previousHash, eventType, c.format(StoreTime(t)), c.format(t), payload);
  }

  lemma SameTime(previousHash: string, eventType: string, f: string, g: string, payload: string)
    ensures Encode(previousHash, eventType, f, payload) == Encode(previousHash, eventType, g, payload) ==> f == g
  {
    var before, after := previousHash + ("|" + (eventType + "|")), "|" + payload;
    assert Encode(previousHash, eventType, f, payload) == before + f + after;
    assert Encode(previousHash, eventType, g, payload) == before + g + after;
    hide Encode;
    CutMiddle(before, f, after);
    CutMiddle(before, g, after);
  }

  lemma CutMiddle(before: string, f: string, after: string)
    ensures |before + f + after| == |before| + |f| + |after|
    ensures f == (before + f + after)[|before|..|before + f + after| - |after|]
  {
  }

  // ---------------------------------------------------------------- one writer

  /** audit_log as the store holds it. */
  class AuditLog<P> {
    const codec: Codec<P>
    var rows: seq<Row>

    constructor (codec: Codec<P>)
      ensures this.codec == codec && rows == []
    {
      this.codec, rows := codec, [];
    }

    /** A row can be sealed for the request, and its hash is new. */
    ghost predicate Insertable(q: Request)
      reads this
    {
      var row := SealRow(codec, LastHash(rows), q);
      row.Some? && forall i :: 0 <= i < |rows| ==> rows[i].rowHash != row.value.rowHash
    }

    /** WriteAuditEntry as one transaction: appends the sealed row, or changes nothing; a commit that goes unanswered is
        reported as a failure. */
    method WriteAuditEntry(q: Request, commit: Fate) returns (ok: bool)
      modifies this
      ensures ok <==> old(Insertable(q)) && commit.Works?
      ensures rows == if old(Insertable(q)) && Lands(commit) then old(rows + [SealRow(codec, LastHash(rows), q).value])
                      else old(rows)
      ensures Stable(codec) && old(GoodLog(codec, rows)) ==> GoodLog(codec, rows)
      ensures Stable(codec) && old(Insertable(q)) && Lands(commit) ==>
        rows != [] && Reload(codec, rows[|rows| - 1]).Some? && Records(codec, Reload(codec, rows[|rows| - 1]).value, q)
    {
      var previous := if |rows| == 0 then None else Some(rows[|rows| - 1].rowHash);
      var row := SealRow(codec, previous, q);
      if row.None? { return false; }
      for i := 0 to |rows|
        invariant forall j :: 0 <= j < i ==> rows[j].rowHash != row.value.rowHash
      {
        if rows[i].rowHash == row.value.rowHash { return false; }
      }
      if Stable(codec) && GoodLog(codec, rows) { SealedRowExtends(codec, rows, q); }
      if Stable(codec) { SealedRowRecords(codec, previous, q); }
      hide Records;
      hide Reload;
      if Lands(commit) { rows := rows + [row.value]; }
      ok := commit.Works?;
    }

    /** LoadAuditEntries: every row in insertion order, or an error when a payload does not decode. */
    method LoadAuditEntries() returns (entries: Option<seq<Entry<P>>>)
      ensures entries.Some? <==> Readable(codec, rows)
      ensures entries.Some? ==> entries.value == ReloadAll(codec, rows)
    {
      var loaded: seq<Entry<P>> := [];
      for i := 0 to |rows|
        invariant |loaded| == i
        invariant forall j :: 0 <= j < i ==>
          codec.unmarshal(rows[j].payload).Some? && Some(loaded[j]) == Reload(codec, rows[j])
      {
        var entry := Reload(codec, rows[i]);
        if entry.None? { return None; }
        loaded := loaded + [entry.value];
      }
      assert loaded == ReloadAll(codec, rows);
      entries := Some(loaded);
    }
  }

  // ---------------------------------------------------------------- concurrent writers

  datatype Writer = Waiting(request: Request) | Holding(request: Request, previous: Option<string>) | Inserted(row: Row)

  /** `holder` owns the lock on the last row from its SELECT ... FOR UPDATE until commit or rollback. */
  datatype Db = Db(log: seq<Row>, writers: map<nat, Writer>, holder: Option<nat>)

  datatype Step = Arrive(id: nat, request: Request)
                | ReadTail(id: nat)
                | InsertRow(id: nat)
                | Commit(id: nat)
                | Rollback(id: nat)

  predicate Enabled<P>(c: Codec<P>, db: Db, step: Step)
  {
    match step
    case Arrive(id, _) => id !in db.writers
    case ReadTail(id) => id in db.writers && db.writers[id].Waiting? && db.holder.None?
    case InsertRow(id) => id in db.writers && db.writers[id].Holding?
      && SealRow(c, db.writers[id].previous, db.writers[id].request).Some?
      && forall i :: 0 <= i < |db.log| ==>
        db.log[i].rowHash != SealRow(c, db.writers[id].previous, db.writers[id].request).value.rowHash
    case Commit(id) => id in db.writers && db.writers[id].Inserted?
    case Rollback(id) => id in db.writers
  }

  function Do<P>(c: Codec<P>, db: Db, step: Step): Db
    requires Enabled(c, db, step)
  {
    match step
    case Arrive(id, request) => db.(writers := db.writers[id := Waiting(request)])
    case ReadTail(id) =>
      db.(writers := db.writers[id := Holding(db.writers[id].request, LastHash(db.log))], holder := Some(id))
    case InsertRow(id) =>
      db.(writers := db.writers[id := Inserted(SealRow(c, db.writers[id].previous, db.writers[id].request).value)])
    case Commit(id) => Db(db.log + [db.writers[id].row], db.writers - {id}, None)
    case Rollback(id) => Db(db.log, db.writers - {id}, if db.holder == Some(id) then None else db.holder)
  }

  /** What a writer that is not waiting holds fits the committed log. */
  ghost predicate Fits<P>(c: Codec<P>, log: seq<Row>, w: Writer)
  {
    && (w.Holding? ==> w.previous == LastHash(log))
    && (w.Inserted? ==> GoodLog(c, log + [w.row]))
  }

  ghost predicate DbOk<P>(c: Codec<P>, db: Db)
  {
    && GoodLog(c, db.log)
    && (forall id | id in db.writers :: Fits(c, db.log, db.writers[id]))
    && (forall id | id in db.writers :: !db.writers[id].Waiting? ==> db.holder == Some(id))
    && (db.holder.Some? ==> db.holder.value in db.writers && !db.writers[db.holder.value].Waiting?)
  }

  lemma CommitKeepsDbOk<P>(c: Codec<P>, db: Db, id: nat)
    requires DbOk(c, db) && Enabled(c, db, Commit(id))
    ensures DbOk(c, Do(c, db, Commit(id)))
  {
    hide GoodLog;
    hide LastHash;
    assert Fits(c, db.log, db.writers[id]);
    var v := Do(c, db, Commit(id));
    forall other | other in v.writers ensures v.writers[other].Waiting? { assert other in db.writers && other != id; }
  }

  lemma ReadTailKeepsDbOk<P>(c: Codec<P>, db: Db, id: nat)
    requires DbOk(c, db) && Enabled(c, db, ReadTail(id))
    ensures DbOk(c, Do(c, db, ReadTail(id)))
  {
    hide GoodLog;
    hide LastHash;
  }

  lemma InsertKeepsDbOk<P>(c: Codec<P>, db: Db, id: nat)
    requires Stable(c) && DbOk(c, db) && Enabled(c, db, InsertRow(id))
    ensures DbOk(c, Do(c, db, InsertRow(id)))
  {
    InsertedRowFits(c, db, id);
    hide Stable;
    hide GoodLog;
    hide SealRow;
    hide LastHash;
  }

  lemma StepKeepsDbOk<P>(c: Codec<P>, db: Db, step: Step)
    requires Stable(c) && DbOk(c, db) && Enabled(c, db, step)
    ensures DbOk(c, Do(c, db, step))
  {
    hide Stable;
    hide Fits;
    hide GoodLog;
    match step
    case ReadTail(id) => ReadTailKeepsDbOk(c, db, id);
    case InsertRow(id) => InsertKeepsDbOk(c, db, id);
    case Commit(id) => CommitKeepsDbOk(c, db, id);
    case Rollback(_) =>
    case Arrive(_, request) => assert Fits(c, db.log, Waiting(request)) by { WaitingFits(c, db.log, request); }
  }

  lemma WaitingFits<P>(c: Codec<P>, log: seq<Row>, request: Request)
    ensures Fits(c, log, Waiting(request))
  {
  }

  lemma InsertedRowFits<P>(c: Codec<P>, db: Db, id: nat)
    requires Stable(c) && DbOk(c, db) && Enabled(c, db, InsertRow(id))
    ensures GoodLog(c, db.log + [SealRow(c, db.writers[id].previous, db.writers[id].request).value])
  {
    assert Fits(c, db.log, db.writers[id]);
    hide DbOk;
    SealedRowExtends(c, db.log, db.writers[id].request);
  }

  ghost predicate Behaves<P>(c: Codec<P>, dbs: seq<Db>, steps: seq<Step>)
  {
    && |dbs| == |steps| + 1
    && dbs[0] == Db([], map[], None)
    && forall i :: 0 <= i < |steps| ==> Enabled(c, dbs[i], steps[i]) && dbs[i + 1] == Do(c, dbs[i], steps[i])
  }

  /** In every interleaving of any number of writers the committed log reloads into one chain that Verify accepts. */
  lemma {:induction false} InterleavedWritersKeepChain<P>(c: Codec<P>, dbs: seq<Db>, steps: seq<Step>, n: nat)
    requires Stable(c) && Behaves(c, dbs, steps) && n < |dbs|
    ensures DbOk(c, dbs[n]) && Readable(c, dbs[n].log) && Chained(c, ReloadAll(c, dbs[n].log))
  {
    if n > 0 {
      InterleavedWritersKeepChain(c, dbs, steps, n - 1);
      assert dbs[n] == Do(c, dbs[n - 1], steps[n - 1]);
      StepKeepsDbOk(c, dbs[n - 1], steps[n - 1]);
    }
  }
}
