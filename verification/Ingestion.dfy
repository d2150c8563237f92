/** Ingestion (internal/ingestion/pipeline.go, cache.go, worker.go): a lossy duplicate cache in front of a unique key,
    one transaction per record, and queue messages acknowledged after commit. */
module Ingestion {
  import opened Sequences
  import opened IngestStore
  import opened Remote

  // ---------------------------------------------------------------- one record

  /** What the surroundings do while one record is persisted: keys the cache has lost by then, whether it answers
      and whether a mark reaches it, what becomes of the transaction and of the audit write, and the clock. A memory
      cache loses nothing and always answers, no cache at all never answers. */
  datatype Env = Env(evicted: set<string>, answers: bool, markLands: bool, tx: Fate, auditWrite: Fate, now: int)

  /** Both writes are acknowledged. */
  predicate Plain(e: Env) { e.tx.Works? && e.auditWrite.Works? }

  /** `audit` holds the keys of the audit entries, and is absent for a store that keeps no audit log. */
  datatype State = State(memory: Memory, audit: Option<seq<string>>, cache: set<string>)

  datatype Verdict = Applied | Duplicate | Failed

  function Mark(cache: set<string>, key: string, e: Env): set<string> { if e.markLands then cache + {key} else cache }

  /** The transaction as the caller sees it: a commit that goes unanswered is reported as a failure. */
  function Transact(m: Memory, r: Record, e: Env): (Memory, Error)
  {
    var (next, err) := Tx(m, r, e.now);
    match e.tx
    case Works => (next, err)
    case Fails => (m, WriteFailed)
    case Unanswered => (next, if err.NoError? then WriteFailed else err)
  }

  /** persist. */
  function Persist(s: State, r: Record, e: Env): (State, Verdict)
  {
    var cache := s.cache - e.evicted;
    if e.answers && r.key in cache then (s.(cache := cache), Duplicate)
    else
      var (memory, err) := Transact(s.memory, r, e);
      if err.DuplicateKey? then (s.(cache := Mark(cache, r.key, e)), Duplicate)
      else if !err.NoError? then (State(memory, s.audit, cache), Failed)
      else if s.audit.None? then (State(memory, None, Mark(cache, r.key, e)), Applied)
      else
        var audit := if Lands(e.auditWrite) then s.audit.value + [r.key] else s.audit.value;
        if e.auditWrite.Works? then (State(memory, Some(audit), Mark(cache, r.key, e)), Applied)
        else (State(memory, Some(audit), cache), Failed)
  }

  function Raw(s: State): map<string, RawEvent> { s.memory.tables.raw }

  // ---------------------------------------------------------------- one file

  datatype Tally = Tally(state: State, applied: nat, duplicates: nat, ok: bool)

  /** Records `i` on, until one fails. */
  function Pass(s: State, rs: seq<Record>, es: nat -> Env, i: nat): Tally
    requires i <= |rs|
    decreases |rs| - i
  {
    if i == |rs| then Tally(s, 0, 0, true)
    else
      var (next, verdict) := Persist(s, rs[i], es(i));
      if verdict.Failed? then Tally(next, 0, 0, false)
      else
        var rest := Pass(next, rs, es, i + 1);
        if verdict.Applied? then rest.(applied := rest.applied + 1) else rest.(duplicates := rest.duplicates + 1)
  }

  datatype Result = AppliedResult(applied: nat) | DuplicateResult | RejectedResult

  function ResultOf(t: Tally): Result
  {
    if !t.ok then RejectedResult else if t.applied == 0 && t.duplicates > 0 then DuplicateResult
    else AppliedResult(t.applied)
  }

  /** ShouldAck. */
  function ShouldAck(r: Result): bool { !r.RejectedResult? }

  // ---------------------------------------------------------------- what a webhook must carry

  type Body = seq<bv8>

  /** The keyed hash, hexadecimal decoding, parsing and the source named by an object's path are given. */
  datatype Library = Library(mac: (string, Body) -> Body, unhex: string -> Option<Body>,
                             parse: (string, Body) -> Option<seq<Record>>, sourceOf: string -> string)

  datatype Envelope = Envelope(source: string, body: Body, signature: string, secret: string)

  /** VerifyHMAC. */
  predicate VerifyHmac(lib: Library, body: Body, signature: string, secret: string)
  {
    secret != "" && signature != "" && lib.unhex(signature) == Some(lib.mac(secret, body))
  }

  /** The records an envelope is admitted with, if it is. */
  function Admit(lib: Library, pipelineSecret: string, envelope: Envelope): Option<seq<Record>>
  {
    var secret := if envelope.secret == "" then pipelineSecret else envelope.secret;
    if envelope.source == "webhook" && !VerifyHmac(lib, envelope.body, envelope.signature, secret) then None
    else lib.parse(envelope.source, envelope.body)
  }

  function Processed(lib: Library, pipelineSecret: string, s: State, envelope: Envelope, es: nat -> Env)
    : (State, Result)
  {
    match Admit(lib, pipelineSecret, envelope)
    case None => (s, RejectedResult)
    case Some(rs) => var tally := Pass(s, rs, es, 0); (tally.state, ResultOf(tally))
  }

  // ---------------------------------------------------------------- a receive batch

  datatype Message = Message(receipt: string, body: Body, signature: string, source: string, bucket: string,
                             key: string)

  /** What the surroundings do with one message: what the object store returns, and what becomes of the delete. */
  datatype Transport = Transport(es: nat -> Env, fetched: Option<Body>, delete: Fate)

  function NeedsObject(m: Message, objects: bool): bool { m.bucket != "" && m.key != "" && objects && m.body == [] }

  function EnvelopeOf(lib: Library, secret: string, m: Message, objects: bool, fetched: Option<Body>): Envelope
    requires NeedsObject(m, objects) ==> fetched.Some?
  {
    if NeedsObject(m, objects) then
      Envelope(if m.source == "" then lib.sourceOf("/" + m.key) else m.source, fetched.value, m.signature, secret)
    else Envelope(m.source, m.body, m.signature, secret)
  }

  /** The messages deleted, by position, and whether the batch was worked off. */
  datatype Drained = Drained(state: State, deleted: seq<nat>, ok: bool)

  /** ProcessQueue from message `k` on. */
  function Drain(lib: Library, secret: string, s: State, ms: seq<Message>, objects: bool, ts: nat -> Transport,
                 k: nat): Drained
    requires k <= |ms|
    decreases |ms| - k
  {
    if k == |ms| then Drained(s, [], true)
    else if NeedsObject(ms[k], objects) && ts(k).fetched.None? then Drained(s, [], false)
    else
      var (next, result) := Processed(lib, secret, s, EnvelopeOf(lib, secret, ms[k], objects, ts(k).fetched), ts(k).es);
      if !ShouldAck(result) then Drain(lib, secret, next, ms, objects, ts, k + 1)
      else if !ts(k).delete.Works? then Drained(next, if Lands(ts(k).delete) then [k] else [], false)
      else
        var rest := Drain(lib, secret, next, ms, objects, ts, k + 1);
        rest.(deleted := [k] + rest.deleted)
  }

  // ---------------------------------------------------------------- the loops

  class Pipeline {
    const store: MemoryStore
    const lib: Library
    const secret: string
    var audit: Option<seq<string>>
    var cache: set<string>
    var acknowledged: seq<nat>

    constructor (store: MemoryStore, lib: Library, secret: string, audited: bool)
      ensures this.store == store && this.lib == lib && this.secret == secret
      ensures Value() == State(store.Value(), if audited then Some([]) else None, {}) && acknowledged == []
    {
      this.store, this.lib, this.secret := store, lib, secret;
      audit, cache, acknowledged := if audited then Some([]) else None, {}, [];
    }

    function Value(): State
      reads this, store
    {
      State(store.Value(), audit, cache)
    }

    method PersistRecord(r: Record, e: Env) returns (verdict: Verdict)
      modifies this`audit, this`cache, store
      ensures (Value(), verdict) == Persist(old(Value()), r, e)
    {
      cache := cache - e.evicted;
      if e.answers && r.key in cache { return Duplicate; }
      var err := WriteFailed;
      if Lands(e.tx) { err := store.InTx(r, e.now); }
      if err == NoError && e.tx.Unanswered? { err := WriteFailed; }
      if err == DuplicateKey {
        cache := Mark(cache, r.key, e);
        return Duplicate;
      }
      if err != NoError { return Failed; }
      if audit.Some? {
        if Lands(e.auditWrite) { audit := Some(audit.value + [r.key]); }
        if !e.auditWrite.Works? { return Failed; }
      }
      cache := Mark(cache, r.key, e);
      return Applied;
    }

    method Process(envelope: Envelope, es: nat -> Env) returns (result: Result)
      modifies this`audit, this`cache, store
      ensures (Value(), result) == Processed(lib, secret, old(Value()), envelope, es)
    {
      var used := if envelope.secret == "" then secret else envelope.secret;
      if envelope.source == "webhook" && !VerifyHmac(lib, envelope.body, envelope.signature, used) {
        return RejectedResult;
      }
      var parsed := lib.parse(envelope.source, envelope.body);
      if parsed.None? { return RejectedResult; }
      var rs, applied, duplicates := parsed.value, 0, 0;
      ghost var whole := Pass(Value(), rs, es, 0);
      for i := 0 to |rs|
        invariant var rest := Pass(Value(), rs, es, i);
          whole == rest.(applied := applied + rest.applied, duplicates := duplicates + rest.duplicates)
        invariant applied >= 0 && duplicates >= 0
      {
        var verdict := PersistRecord(rs[i], es(i));
        if verdict == Failed { return RejectedResult; }
        if verdict == Applied { applied := applied + 1; } else { duplicates := duplicates + 1; }
      }
      if applied == 0 && duplicates > 0 { return DuplicateResult; }
      return AppliedResult(applied);
    }

    /** `acknowledged` gathers the positions of the messages deleted. */
    method ProcessQueue(ms: seq<Message>, objects: bool, ts: nat -> Transport) returns (ok: bool)
      modifies this, store
      ensures var d := Drain(lib, secret, old(Value()), ms, objects, ts, 0);
        Value() == d.state && acknowledged == old(acknowledged) + d.deleted && ok == d.ok
    {
      hide Processed;
      hide EnvelopeOf;
      ghost var whole := Drain(lib, secret, Value(), ms, objects, ts, 0);
      ghost var done: seq<nat> := [];
      for k := 0 to |ms|
        invariant acknowledged == old(acknowledged) + done
        invariant var rest := Drain(lib, secret, Value(), ms, objects, ts, k);
          whole == rest.(deleted := done + rest.deleted)
      {
        if NeedsObject(ms[k], objects) && ts(k).fetched.None? { return false; }
        var result := Process(EnvelopeOf(lib, secret, ms[k], objects, ts(k).fetched), ts(k).es);
        if !ShouldAck(result) { continue; }
        if Lands(ts(k).delete) { acknowledged := acknowledged + [k]; }
        if !ts(k).delete.Works? { return false; }
        ghost var rest := Drain(lib, secret, Value(), ms, objects, ts, k + 1);
        Assoc(done, [k], rest.deleted);
        done := done + [k];
      }
      return true;
    }
  }

  // ---------------------------------------------------------------- what every step keeps

  /** Only committed keys are cached. */
  ghost predicate CacheSafe(s: State) { s.cache <= Raw(s).Keys }

  /** Committed events stay as they are. */
  ghost predicate Extends(before: map<string, RawEvent>, after: map<string, RawEvent>)
  {
    forall k :: k in before ==> k in after && after[k] == before[k]
  }

  lemma TransactExtends(m: Memory, r: Record, e: Env)
    ensures var (next, err) := Transact(m, r, e);
      && Extends(m.tables.raw, next.tables.raw)
      && (err.NoError? ==> next.tables.raw.Keys == m.tables.raw.Keys + {r.key})
      && (next == m || next.tables.raw.Keys == m.tables.raw.Keys + {r.key})
      && (err.DuplicateKey? ==> r.key in m.tables.raw && next == m)
  {
    assert Land(m.tables, r, e.now).raw == m.tables.raw[r.key := EventOf(r, e.now)];
  }

  /** Whatever fails: committed events stay, only committed keys are cached, and a record is only reported as applied
      or duplicate once its key is committed. */
  lemma PersistKeeps(s: State, r: Record, e: Env)
    requires CacheSafe(s)
    ensures var (next, verdict) := Persist(s, r, e);
      CacheSafe(next) && Extends(Raw(s), Raw(next)) && (!verdict.Failed? ==> r.key in Raw(next))
  {
    TransactExtends(s.memory, r, e);
    hide Transact;
  }

  lemma ExtendsTrans(a: map<string, RawEvent>, b: map<string, RawEvent>, c: map<string, RawEvent>)
    requires Extends(a, b) && Extends(b, c)
    ensures Extends(a, c) && b.Keys <= c.Keys
  {
  }

  lemma {:induction false} PassKeeps(s: State, rs: seq<Record>, es: nat -> Env, i: nat)
    requires CacheSafe(s) && i <= |rs|
    ensures var tally := Pass(s, rs, es, i);
      && CacheSafe(tally.state)
      && Extends(Raw(s), Raw(tally.state))
      && (tally.ok ==> forall j :: i <= j < |rs| ==> rs[j].key in Raw(tally.state))
    decreases |rs| - i
  {
    if i < |rs| {
      var (next, verdict) := Persist(s, rs[i], es(i));
      PersistKeeps(s, rs[i], es(i));
      hide Persist;
      hide CacheSafe;
      if !verdict.Failed? {
        PassKeeps(next, rs, es, i + 1);
        ExtendsTrans(Raw(s), Raw(next), Raw(Pass(next, rs, es, i + 1).state));
        hide Extends;
      }
    }
  }

  /** The key of every record of the file is committed. */
  ghost predicate Committed(s: State, rs: seq<Record>) { forall j :: 0 <= j < |rs| ==> rs[j].key in Raw(s) }

  lemma ProcessedKeeps(lib: Library, secret: string, s: State, envelope: Envelope, es: nat -> Env)
    requires CacheSafe(s)
    ensures var (next, result), admitted := Processed(lib, secret, s, envelope, es), Admit(lib, secret, envelope);
      && CacheSafe(next)
      && Extends(Raw(s), Raw(next))
      && (ShouldAck(result) ==> admitted.Some? && Committed(next, admitted.value))
      && (admitted.None? ==> next == s && !ShouldAck(result))
  {
    var admitted := Admit(lib, secret, envelope);
    hide Admit;
    if admitted.Some? { PassKeeps(s, admitted.value, es, 0); }
  }

  // ---------------------------------------------------------------- what the answer counts

  lemma PersistCounts(s: State, r: Record, e: Env)
    requires CacheSafe(s)
    ensures var (next, verdict) := Persist(s, r, e);
      && (verdict.Applied? ==> r.key !in Raw(s) && Raw(next).Keys == Raw(s).Keys + {r.key})
      && (verdict.Duplicate? ==> r.key in Raw(s) && Raw(next) == Raw(s))
  {
    TxCommitsOrNothing(s.memory, r, e.now);
    hide Tx;
  }

  /** Over records `i` on of a pass that is worked off, `applied` counts the new keys and `duplicates` the rest. */
  lemma {:induction false} PassCounts(s: State, rs: seq<Record>, es: nat -> Env, i: nat)
    requires CacheSafe(s) && i <= |rs| && Pass(s, rs, es, i).ok
    ensures var tally := Pass(s, rs, es, i);
      && Raw(s).Keys <= Raw(tally.state).Keys
      && tally.applied == |Raw(tally.state).Keys - Raw(s).Keys|
      && tally.applied + tally.duplicates == |rs| - i
    decreases |rs| - i
  {
    if i < |rs| {
      var (next, verdict) := Persist(s, rs[i], es(i));
      PersistCounts(s, rs[i], es(i));
      PersistKeeps(s, rs[i], es(i));
      hide Persist;
      PassCounts(next, rs, es, i + 1);
      var last := Pass(next, rs, es, i + 1).state;
      hide CacheSafe;
      hide Extends;
      if verdict.Applied? { OneMoreKey(Raw(s).Keys, rs[i].key, Raw(last).Keys); }
    } else {
      assert Raw(s).Keys - Raw(s).Keys == {};
    }
  }

  /** What the answer of Process means: rejected if the envelope is not admitted or a record fails, a duplicate if the
      file is worked off, has records and adds no key, and otherwise applied with the number of keys added. */
  lemma AnswerMeans(lib: Library, secret: string, s: State, envelope: Envelope, es: nat -> Env)
    requires CacheSafe(s)
    ensures var (next, result), admitted := Processed(lib, secret, s, envelope, es), Admit(lib, secret, envelope);
      var added := |Raw(next).Keys - Raw(s).Keys|;
      && (result.RejectedResult? <==> admitted.None? || !Pass(s, admitted.value, es, 0).ok)
      && (!result.RejectedResult? ==>
            result == if admitted.value != [] && added == 0 then DuplicateResult else AppliedResult(added))
  {
    var admitted := Admit(lib, secret, envelope);
    hide Admit;
    if admitted.Some? && Pass(s, admitted.value, es, 0).ok { PassCounts(s, admitted.value, es, 0); }
    hide Pass;
  }

  /** An envelope is admitted exactly when it parses and, coming from a webhook, carries the keyed hash of its body
      under a secret that is set. */
  lemma AdmittedIff(lib: Library, secret: string, envelope: Envelope)
    ensures var used := if envelope.secret != "" then envelope.secret else secret;
      Admit(lib, secret, envelope).Some? <==>
        && lib.parse(envelope.source, envelope.body).Some?
        && (envelope.source == "webhook" ==>
              && used != ""
              && envelope.signature != ""
              && lib.unhex(envelope.signature) == Some(lib.mac(used, envelope.body)))
    ensures Admit(lib, secret, envelope).Some? ==>
      Admit(lib, secret, envelope) == lib.parse(envelope.source, envelope.body)
  {
  }

  /** A webhook whose signature is not the keyed hash of its body is rejected and changes nothing. */
  lemma ForgeryIsInert(lib: Library, secret: string, s: State, envelope: Envelope, es: nat -> Env)
    requires envelope.source == "webhook"
    requires lib.unhex(envelope.signature) !=
      Some(lib.mac(if envelope.secret != "" then envelope.secret else secret, envelope.body))
    ensures Processed(lib, secret, s, envelope, es) == (s, RejectedResult)
  {
    AdmittedIff(lib, secret, envelope);
    hide Admit;
  }

  /** A message without a body is processed with the object it names, under the source its path names if it has none;
      any other with its own body. */
  lemma MessageBody(lib: Library, secret: string, m: Message, objects: bool, fetched: Option<Body>)
    requires NeedsObject(m, objects) ==> fetched.Some?
    ensures var e := EnvelopeOf(lib, secret, m, objects, fetched);
      && e.signature == m.signature
      && e.secret == secret
      && (m.body != [] || !objects || m.bucket == "" || m.key == "" ==> e.body == m.body && e.source == m.source)
      && (m.body == [] && objects && m.bucket != "" && m.key != "" ==>
            Some(e.body) == fetched && e.source == if m.source != "" then m.source else lib.sourceOf("/" + m.key))
  {
  }

  // ---------------------------------------------------------------- what the cache is for

  /** A key that was marked is answered from the cache: the record counts as a duplicate and the store is not asked,
      whatever would have become of the transaction. */
  lemma MarkedKeyIsAnswered(s: State, r: Record, e: Env, again: Record, f: Env)
    requires CacheSafe(s) && !Persist(s, r, e).1.Failed? && e.markLands && again.key == r.key
    requires f.answers && r.key !in f.evicted
    ensures var next := Persist(s, r, e).0;
      r.key in next.cache && Persist(next, again, f) == (next.(cache := next.cache - f.evicted), Duplicate)
  {
    hide Transact;
  }

  // ---------------------------------------------------------------- acknowledgement

  /** The records of message `j`, if it is admitted. */
  function RecordsOf(lib: Library, secret: string, ms: seq<Message>, objects: bool, ts: nat -> Transport,
                     j: nat): Option<seq<Record>>
    requires j < |ms|
  {
    if NeedsObject(ms[j], objects) && ts(j).fetched.None? then None
    else Admit(lib, secret, EnvelopeOf(lib, secret, ms[j], objects, ts(j).fetched))
  }

  /** Message `j` was admitted and all its keys are committed. */
  ghost predicate Done(lib: Library, secret: string, ms: seq<Message>, objects: bool, ts: nat -> Transport, j: nat,
                       s: State)
    requires j < |ms|
  {
    var admitted := RecordsOf(lib, secret, ms, objects, ts, j); admitted.Some? && Committed(s, admitted.value)
  }

  /** A message is only deleted once every record key in it is committed, whatever fails in the batch. */
  lemma {:induction false} DeletedOnlyAfterCommit(lib: Library, secret: string, s: State, ms: seq<Message>,
                                                  objects: bool, ts: nat -> Transport, k: nat)
    requires CacheSafe(s) && k <= |ms|
    ensures var d := Drain(lib, secret, s, ms, objects, ts, k);
      && CacheSafe(d.state)
      && Extends(Raw(s), Raw(d.state))
      && forall j :: j in d.deleted ==> k <= j < |ms| && Done(lib, secret, ms, objects, ts, j, d.state)
    decreases |ms| - k
  {
    if k < |ms| && !(NeedsObject(ms[k], objects) && ts(k).fetched.None?) {
      var envelope := EnvelopeOf(lib, secret, ms[k], objects, ts(k).fetched);
      var (next, result) := Processed(lib, secret, s, envelope, ts(k).es);
      ProcessedKeeps(lib, secret, s, envelope, ts(k).es);
      DeletedOnlyAfterCommit(lib, secret, next, ms, objects, ts, k + 1);
      hide Processed;
      hide EnvelopeOf;
      hide Admit;
    }
  }

  /** A message that is answered as applied or duplicate is deleted exactly when its delete takes effect, and the batch
      goes on exactly when the delete is acknowledged; one that is rejected is left and the batch goes on. */
  lemma DeletedIffAnswered(lib: Library, secret: string, s: State, ms: seq<Message>, objects: bool,
                           ts: nat -> Transport, k: nat)
    requires k < |ms| && CacheSafe(s) && (NeedsObject(ms[k], objects) ==> ts(k).fetched.Some?)
    ensures var envelope := EnvelopeOf(lib, secret, ms[k], objects, ts(k).fetched);
      var (next, result) := Processed(lib, secret, s, envelope, ts(k).es);
      var d, rest := Drain(lib, secret, s, ms, objects, ts, k), Drain(lib, secret, next, ms, objects, ts, k + 1);
      && (k in d.deleted <==> !result.RejectedResult? && Lands(ts(k).delete))
      && (result.RejectedResult? || ts(k).delete.Works? ==> d.ok == rest.ok && d.state == rest.state)
      && (!result.RejectedResult? && !ts(k).delete.Works? ==> !d.ok && d.state == next)
  {
    var envelope := EnvelopeOf(lib, secret, ms[k], objects, ts(k).fetched);
    ProcessedKeeps(lib, secret, s, envelope, ts(k).es);
    DeletedOnlyAfterCommit(lib, secret, Processed(lib, secret, s, envelope, ts(k).es).0, ms, objects, ts, k + 1);
    hide Processed;
    hide EnvelopeOf;
    hide Done;
    hide CacheSafe;
    hide Extends;
  }

  // ---------------------------------------------------------------- faults aside, the cache does not show

  ghost predicate FaultFree(es: nat -> Env) { forall i :: Plain(es(i)) }

  /** Equal but for the caches and the receive timestamps, with no write fault pending. */
  ghost predicate Alike(s: State, u: State)
  {
    && Blank(s.memory.tables) == Blank(u.memory.tables)
    && s.audit == u.audit
    && s.memory.failAfter == 0 == u.memory.failAfter
    && CacheSafe(s)
    && CacheSafe(u)
  }

  lemma SameKeys(t: Tables, u: Tables)
    requires Blank(t) == Blank(u)
    ensures t.raw.Keys == u.raw.Keys
  {
    assert Blank(t).raw.Keys == t.raw.Keys && Blank(u).raw.Keys == u.raw.Keys;
  }

  /** What persist does when nothing fails. */
  lemma PersistPlain(s: State, r: Record, e: Env)
    requires CacheSafe(s) && s.memory.failAfter == 0 && Plain(e)
    ensures var (next, verdict) := Persist(s, r, e);
      && CacheSafe(next)
      && next.memory.failAfter == 0
      && verdict == (if r.key in Raw(s) then Duplicate else if r.row.Missing? then Failed else Applied)
      && next.memory.tables == (if verdict.Applied? then Land(s.memory.tables, r, e.now) else s.memory.tables)
      && next.audit == (if verdict.Applied? && s.audit.Some? then Some(s.audit.value + [r.key]) else s.audit)
  {
    PersistKeeps(s, r, e);
    hide Land;
  }

  lemma PersistAgrees(s: State, u: State, r: Record, e: Env, f: Env)
    requires Alike(s, u) && Plain(e) && Plain(f)
    ensures Persist(s, r, e).1 == Persist(u, r, f).1
    ensures Alike(Persist(s, r, e).0, Persist(u, r, f).0)
  {
    PersistPlain(s, r, e);
    PersistPlain(u, r, f);
    SameKeys(s.memory.tables, u.memory.tables);
    BlankLand(s.memory.tables, r, e.now);
    BlankLand(u.memory.tables, r, f.now);
    hide Persist;
    hide Land;
    hide Blank;
    hide CacheSafe;
  }

  lemma {:induction false} PassAgrees(s: State, u: State, rs: seq<Record>, es: nat -> Env, fs: nat -> Env, i: nat)
    requires Alike(s, u) && FaultFree(es) && FaultFree(fs) && i <= |rs|
    ensures var a, b := Pass(s, rs, es, i), Pass(u, rs, fs, i);
      Alike(a.state, b.state) && a.applied == b.applied && a.duplicates == b.duplicates && a.ok == b.ok
    decreases |rs| - i
  {
    if i < |rs| {
      PersistAgrees(s, u, rs[i], es(i), fs(i));
      hide Persist;
      hide Alike;
      if !Persist(s, rs[i], es(i)).1.Failed? {
        PassAgrees(Persist(s, rs[i], es(i)).0, Persist(u, rs[i], fs(i)).0, rs, es, fs, i + 1);
      }
    }
  }

  /** A sequence of Process calls, from call `k` on. */
  function Calls(lib: Library, secret: string, s: State, envelopes: seq<Envelope>, ess: nat -> nat -> Env,
                 k: nat): (State, seq<Result>)
    requires k <= |envelopes|
    decreases |envelopes| - k
  {
    if k == |envelopes| then (s, [])
    else
      var (next, result) := Processed(lib, secret, s, envelopes[k], ess(k));
      var (last, results) := Calls(lib, secret, next, envelopes, ess, k + 1);
      (last, [result] + results)
  }

  ghost predicate FaultFreeCalls(ess: nat -> nat -> Env) { forall k :: FaultFree(ess(k)) }

  lemma {:induction false} CallsAgree(lib: Library, secret: string, s: State, u: State, envelopes: seq<Envelope>,
                                      ess: nat -> nat -> Env, fss: nat -> nat -> Env, k: nat)
    requires Alike(s, u) && FaultFreeCalls(ess) && FaultFreeCalls(fss) && k <= |envelopes|
    ensures var a, b := Calls(lib, secret, s, envelopes, ess, k), Calls(lib, secret, u, envelopes, fss, k);
      Alike(a.0, b.0) && a.1 == b.1
    decreases |envelopes| - k
  {
    if k < |envelopes| {
      var admitted := Admit(lib, secret, envelopes[k]);
      assert FaultFree(ess(k)) && FaultFree(fss(k));
      if admitted.Some? { PassAgrees(s, u, admitted.value, ess(k), fss(k), 0); }
      hide Alike;
      hide FaultFree;
      hide Pass;
      hide Admit;
      var next := Processed(lib, secret, s, envelopes[k], ess(k)).0;
      var other := Processed(lib, secret, u, envelopes[k], fss(k)).0;
      CallsAgree(lib, secret, next, other, envelopes, ess, fss, k + 1);
    }
  }

  /** The same surroundings without a cache. */
  function NoCache(ess: nat -> nat -> Env): nat -> nat -> Env
  {
    (k: nat) => (i: nat) => ess(k)(i).(evicted := {}, answers := false, markLands := false)
  }

  /** Evictions, outages and lost marks change no status, no table and no audit entry: everything is as with no
      cache. */
  lemma CacheIsTransparent(lib: Library, secret: string, s: State, envelopes: seq<Envelope>, ess: nat -> nat -> Env)
    requires CacheSafe(s) && s.memory.failAfter == 0 && FaultFreeCalls(ess)
    ensures var a := Calls(lib, secret, s, envelopes, ess, 0);
      var b := Calls(lib, secret, s.(cache := {}), envelopes, NoCache(ess), 0);
      && a.1 == b.1
      && Blank(a.0.memory.tables) == Blank(b.0.memory.tables)
      && a.0.audit == b.0.audit
      && CacheSafe(a.0)
  {
    forall k ensures FaultFree(NoCache(ess)(k)) {
      assert FaultFree(ess(k));
    }
    CallsAgree(lib, secret, s, s.(cache := {}), envelopes, ess, NoCache(ess), 0);
  }

  // ---------------------------------------------------------------- redelivery

  /** Records `i` to `j`, receive timestamps aside, with no cache and no fault: the reference for a file. */
  function Landed(t: Tables, rs: seq<Record>, i: nat, j: nat): Tables
    requires i <= j <= |rs|
    decreases j - i
  {
    if i == j then t
    else if rs[i].key in t.raw then Landed(t, rs, i + 1, j)
    else if rs[i].row.Missing? then t
    else Landed(Land(t, rs[i], 0), rs, i + 1, j)
  }

  lemma LandKeys(t: Tables, r: Record)
    ensures Land(t, r, 0).raw.Keys == t.raw.Keys + {r.key}
  {
  }

  lemma {:induction false} LandedKeepsKeys(t: Tables, rs: seq<Record>, i: nat, j: nat)
    requires i <= j <= |rs|
    ensures t.raw.Keys <= Landed(t, rs, i, j).raw.Keys
    decreases j - i
  {
    if i < j {
      if rs[i].key in t.raw {
        LandedKeepsKeys(t, rs, i + 1, j);
      } else if !rs[i].row.Missing? {
        LandKeys(t, rs[i]);
        hide Land;
        LandedKeepsKeys(Land(t, rs[i], 0), rs, i + 1, j);
      }
    }
  }

  /** Landing a prefix of a file twice is landing the longer of the two. */
  lemma {:induction false} LandedTwice(t: Tables, rs: seq<Record>, i: nat, j: nat, n: nat)
    requires i <= j <= |rs| && i <= n <= |rs|
    ensures Landed(Landed(t, rs, i, j), rs, i, n) == Landed(t, rs, i, if j < n then n else j)
    decreases j - i
  {
    if i < j && i < n {
      LandKeys(t, rs[i]);
      hide Land;
      if rs[i].key in t.raw {
        LandedTwice(t, rs, i + 1, j, n);
        LandedKeepsKeys(t, rs, i + 1, j);
      } else if !rs[i].row.Missing? {
        var first := Land(t, rs[i], 0);
        LandedTwice(first, rs, i + 1, j, n);
        LandedKeepsKeys(first, rs, i + 1, j);
      }
    }
  }

  lemma PersistLands(s: State, r: Record, e: Env)
    requires CacheSafe(s)
    ensures var (next, verdict), t := Persist(s, r, e), s.memory.tables;
      && (next.memory.tables == t || (r.key !in t.raw && !r.row.Missing? && next.memory.tables == Land(t, r, e.now)))
      && (!verdict.Failed? ==> r.key in next.memory.tables.raw)
  {
    PersistKeeps(s, r, e);
    hide Land;
  }

  /** Whatever fails, a pass leaves the tables as a prefix of the file would. */
  lemma {:induction false} PassLands(s: State, rs: seq<Record>, es: nat -> Env, i: nat) returns (j: nat)
    requires CacheSafe(s) && i <= |rs|
    ensures i <= j <= |rs| && Blank(Pass(s, rs, es, i).state.memory.tables) == Landed(Blank(s.memory.tables), rs, i, j)
    decreases |rs| - i
  {
    j := i;
    if i < |rs| {
      var (next, verdict) := Persist(s, rs[i], es(i));
      PersistKeeps(s, rs[i], es(i));
      PersistLands(s, rs[i], es(i));
      BlankLand(s.memory.tables, rs[i], es(i).now);
      hide Persist;
      hide Blank;
      hide Land;
      if !verdict.Failed? {
        j := PassLands(next, rs, es, i + 1);
      } else if next.memory.tables != s.memory.tables {
        j := i + 1;
      }
    }
  }

  /** A pass in which nothing fails leaves the tables as the whole file would. */
  lemma {:induction false} PlainPassLands(s: State, rs: seq<Record>, es: nat -> Env, i: nat)
    requires CacheSafe(s) && s.memory.failAfter == 0 && FaultFree(es) && i <= |rs|
    ensures Blank(Pass(s, rs, es, i).state.memory.tables) == Landed(Blank(s.memory.tables), rs, i, |rs|)
    decreases |rs| - i
  {
    if i < |rs| {
      PersistPlain(s, rs[i], es(i));
      BlankLand(s.memory.tables, rs[i], es(i).now);
      var (next, verdict) := Persist(s, rs[i], es(i));
      hide Persist;
      hide Blank;
      hide Land;
      if !verdict.Failed? { PlainPassLands(next, rs, es, i + 1); }
    }
  }

  /** The state after a file was delivered `n` times with nothing in between. */
  function Delivered(s: State, rs: seq<Record>, ess: nat -> nat -> Env, n: nat): State
  {
    if n == 0 then s else Pass(Delivered(s, rs, ess, n - 1), rs, ess(n - 1), 0).state
  }

  lemma {:induction false} DeliveredLands(s: State, rs: seq<Record>, ess: nat -> nat -> Env, n: nat) returns (j: nat)
    requires CacheSafe(s)
    ensures j <= |rs| && CacheSafe(Delivered(s, rs, ess, n))
    ensures Blank(Delivered(s, rs, ess, n).memory.tables) == Landed(Blank(s.memory.tables), rs, 0, j)
  {
    j := 0;
    if n > 0 {
      var before := Delivered(s, rs, ess, n - 1);
      var i := DeliveredLands(s, rs, ess, n - 1);
      PassKeeps(before, rs, ess(n - 1), 0);
      var k := PassLands(before, rs, ess(n - 1), 0);
      LandedTwice(Blank(s.memory.tables), rs, 0, i, k);
      j := if i < k then k else i;
    }
  }

  /** The write fault switched off. */
  function Repaired(s: State): State { s.(memory := s.memory.(failAfter := 0)) }

  /** However often a file failed, at whatever record or write, delivering it once more without faults reaches the
      tables of a single fault-free pass. */
  lemma RedeliveryConverges(s: State, rs: seq<Record>, ess: nat -> nat -> Env, n: nat, again: nat -> Env,
                            clean: nat -> Env)
    requires CacheSafe(s) && FaultFree(again) && FaultFree(clean)
    ensures Blank(Pass(Repaired(Delivered(s, rs, ess, n)), rs, again, 0).state.memory.tables)
         == Blank(Pass(Repaired(s), rs, clean, 0).state.memory.tables)
  {
    var j := DeliveredLands(s, rs, ess, n);
    PlainPassLands(Repaired(Delivered(s, rs, ess, n)), rs, again, 0);
    PlainPassLands(Repaired(s), rs, clean, 0);
    LandedTwice(Blank(s.memory.tables), rs, 0, j, |rs|);
  }

  // ---------------------------------------------------------------- fault-free batches

  /** Parsing never yields a record without a row. */
  ghost predicate Typed(lib: Library)
  {
    forall source, body, r :: lib.parse(source, body).Some? && r in lib.parse(source, body).value ==> !r.row.Missing?
  }

  lemma {:induction false} PlainPassSucceeds(s: State, rs: seq<Record>, es: nat -> Env, i: nat)
    requires CacheSafe(s) && s.memory.failAfter == 0 && FaultFree(es) && i <= |rs|
    requires forall r :: r in rs ==> !r.row.Missing?
    ensures var tally := Pass(s, rs, es, i); tally.ok && CacheSafe(tally.state) && tally.state.memory.failAfter == 0
    decreases |rs| - i
  {
    if i < |rs| {
      PersistPlain(s, rs[i], es(i));
      assert rs[i] in rs;
      hide Persist;
      hide CacheSafe;
      PlainPassSucceeds(Persist(s, rs[i], es(i)).0, rs, es, i + 1);
    }
  }

  lemma PlainCall(lib: Library, secret: string, s: State, envelope: Envelope, es: nat -> Env)
    requires CacheSafe(s) && s.memory.failAfter == 0 && FaultFree(es) && Typed(lib)
    ensures var (next, result) := Processed(lib, secret, s, envelope, es);
      CacheSafe(next) && next.memory.failAfter == 0 && (ShouldAck(result) <==> Admit(lib, secret, envelope).Some?)
  {
    var admitted := Admit(lib, secret, envelope);
    if admitted.Some? { PlainPassSucceeds(s, admitted.value, es, 0); }
  }

  ghost predicate FaultFreeBatch(ts: nat -> Transport)
  {
    forall k :: FaultFree(ts(k).es) && ts(k).fetched.Some? && ts(k).delete.Works?
  }

  /** When nothing fails the batch is worked off and exactly the admitted messages are deleted. */
  lemma {:induction false} DeletedIffAdmitted(lib: Library, secret: string, s: State, ms: seq<Message>, objects: bool,
                                              ts: nat -> Transport, k: nat)
    requires CacheSafe(s) && s.memory.failAfter == 0 && Typed(lib) && FaultFreeBatch(ts) && k <= |ms|
    ensures var d := Drain(lib, secret, s, ms, objects, ts, k);
      d.ok && forall j :: j in d.deleted <==> k <= j < |ms| && RecordsOf(lib, secret, ms, objects, ts, j).Some?
    decreases |ms| - k
  {
    if k < |ms| {
      assert FaultFree(ts(k).es) && ts(k).fetched.Some? && ts(k).delete.Works?;
      var envelope := EnvelopeOf(lib, secret, ms[k], objects, ts(k).fetched);
      assert RecordsOf(lib, secret, ms, objects, ts, k) == Admit(lib, secret, envelope);
      var (next, result) := Processed(lib, secret, s, envelope, ts(k).es);
      PlainCall(lib, secret, s, envelope, ts(k).es);
      DeletedIffAdmitted(lib, secret, next, ms, objects, ts, k + 1);
      hide Processed;
      hide EnvelopeOf;
      hide RecordsOf;
      hide CacheSafe;
    }
  }

  // ---------------------------------------------------------------- raw events and their rows

  /** Every record parsed carries the row its payload normalises to. */
  ghost predicate ParsesTo(lib: Library, rowOf: (string, string) -> Normalized)
  {
    forall source, body, r :: lib.parse(source, body).Some? && r in lib.parse(source, body).value ==> Parsed(rowOf, r)
  }

  lemma {:induction false} PassKeepsPaired(rowOf: (string, string) -> Normalized, s: State, rs: seq<Record>,
                                           es: nat -> Env, i: nat)
    requires CacheSafe(s) && Paired(rowOf, s.memory.tables) && i <= |rs|
    requires forall r :: r in rs ==> Parsed(rowOf, r)
    ensures Paired(rowOf, Pass(s, rs, es, i).state.memory.tables)
    decreases |rs| - i
  {
    if i < |rs| {
      var (next, verdict) := Persist(s, rs[i], es(i));
      assert rs[i] in rs;
      PersistKeeps(s, rs[i], es(i));
      PersistLands(s, rs[i], es(i));
      hide Persist;
      hide Land;
      hide Paired;
      hide CacheSafe;
      if next.memory.tables != s.memory.tables { LandKeepsPaired(rowOf, s.memory.tables, rs[i], es(i).now); }
      if !verdict.Failed? { PassKeepsPaired(rowOf, next, rs, es, i + 1); }
    }
  }

  /** Over every sequence of calls, whatever fails: a raw event is committed together with its row, and no row without
      a raw event. */
  lemma {:induction false} EventsAndRowsStayPaired(lib: Library, rowOf: (string, string) -> Normalized, secret: string,
                                                   s: State, envelopes: seq<Envelope>, ess: nat -> nat -> Env, k: nat)
    requires CacheSafe(s) && Paired(rowOf, s.memory.tables) && ParsesTo(lib, rowOf) && k <= |envelopes|
    ensures var last := Calls(lib, secret, s, envelopes, ess, k).0;
      CacheSafe(last) && Extends(Raw(s), Raw(last)) && Paired(rowOf, last.memory.tables)
    decreases |envelopes| - k
  {
    if k < |envelopes| {
      var admitted := Admit(lib, secret, envelopes[k]);
      var next := Processed(lib, secret, s, envelopes[k], ess(k)).0;
      ProcessedKeeps(lib, secret, s, envelopes[k], ess(k));
      if admitted.Some? { PassKeepsPaired(rowOf, s, admitted.value, ess(k), 0); }
      hide Processed;
      hide Paired;
      hide CacheSafe;
      EventsAndRowsStayPaired(lib, rowOf, secret, next, envelopes, ess, k + 1);
    }
  }

  /** When a delivered record's row is in the tables afterwards: its key was new, or a row of the identity was there
      before. Its content is there when it is the first of its identity under a new key. */
  lemma RowArrivesIff(s: State, r: Record, e: Env)
    requires CacheSafe(s) && s.memory.failAfter == 0 && Plain(e) && !r.row.Missing?
    ensures var t, u := s.memory.tables, Persist(s, r, e).0.memory.tables;
      && (Held(u, r.row) <==> r.key !in t.raw || Held(t, r.row))
      && (Stored(u, r.row) <==> (r.key !in t.raw && !Held(t, r.row)) || Stored(t, r.row))
      && u.raw == if r.key in t.raw then t.raw
                  else t.raw[r.key := RawEvent(r.source, r.externalId, r.eventType, r.key, r.payload, e.now)]
  {
    PersistPlain(s, r, e);
    LandedEvent(s.memory.tables, r, e.now);
    LandHolds(s.memory.tables, r, e.now);
    hide Persist;
    hide Land;
    StoredIsHeld(s.memory.tables, r.row);
    hide Held;
    hide Stored;
  }

  lemma LandedEvent(t: Tables, r: Record, now: int)
    ensures Land(t, r, now).raw == t.raw[r.key := RawEvent(r.source, r.externalId, r.eventType, r.key, r.payload, now)]
  {
  }

  lemma StoredIsHeld(t: Tables, row: Normalized)
    ensures Stored(t, row) ==> Held(t, row)
  {
  }

  /** Delivering one record without faults, receive timestamps aside. */
  function LandOne(t: Tables, r: Record): Tables
    requires !r.row.Missing?
  {
    if r.key in t.raw then t else Land(t, r, 0)
  }

  /** The two records compete: under one new key for the raw event, or under two for the row of one identity. */
  predicate Conflict(t: Tables, a: Record, b: Record)
  {
    && a.key !in t.raw
    && b.key !in t.raw
    && if a.key == b.key
       then EventOf(a, 0) != EventOf(b, 0) || (a.row != b.row && !(Held(t, a.row) && Held(t, b.row)))
       else a.row != b.row && SameIdentity(a.row, b.row) && !Held(t, a.row)
  }

  lemma OneKeyOrder(t: Tables, a: Record, b: Record)
    requires !a.row.Missing? && !b.row.Missing? && a.key == b.key && a.key !in t.raw
    ensures Land(t, a, 0) == Land(t, b, 0) <==> !Conflict(t, a, b)
  {
    if EventOf(a, 0) == EventOf(b, 0) {
      LandRowsAgreeIff(t.(raw := t.raw[a.key := EventOf(a, 0)]), a.row, b.row);
    } else {
      assert Land(t, a, 0).raw[a.key] != Land(t, b, 0).raw[a.key];
    }
  }

  lemma TwoKeysOrder(t: Tables, a: Record, b: Record)
    requires !a.row.Missing? && !b.row.Missing? && a.key != b.key && a.key !in t.raw && b.key !in t.raw
    ensures Land(Land(t, a, 0), b, 0) == Land(Land(t, b, 0), a, 0) <==> !Conflict(t, a, b)
  {
    var both := t.raw[a.key := EventOf(a, 0)][b.key := EventOf(b, 0)];
    assert both == t.raw[b.key := EventOf(b, 0)][a.key := EventOf(a, 0)];
    var u := t.(raw := both);
    LandTwice(t, a, b);
    LandTwice(t, b, a);
    hide Land;
    LandRowsCommuteIff(u, a.row, b.row);
    assert Held(u, a.row) == Held(t, a.row);
    hide LandRow;
    hide Held;
    hide SameIdentity;
  }

  lemma LandTwice(t: Tables, a: Record, b: Record)
    requires a.key != b.key
    ensures Land(Land(t, a, 0), b, 0)
         == LandRow(LandRow(t.(raw := t.raw[a.key := EventOf(a, 0)][b.key := EventOf(b, 0)]), a.row), b.row)
  {
    var first := t.raw[a.key := EventOf(a, 0)];
    RowLeavesEvents(t, a.row, first);
    RowLeavesEvents(t, a.row, first[b.key := EventOf(b, 0)]);
    hide LandRow;
  }

  /** Two records can be delivered in either order exactly when they do not compete. */
  lemma LandOrderIff(t: Tables, a: Record, b: Record)
    requires !a.row.Missing? && !b.row.Missing?
    ensures LandOne(LandOne(t, a), b) == LandOne(LandOne(t, b), a) <==> !Conflict(t, a, b)
  {
    LandKeys(t, a);
    LandKeys(t, b);
    if a.key !in t.raw && b.key !in t.raw {
      if a.key == b.key { OneKeyOrder(t, a, b); } else { TwoKeysOrder(t, a, b); }
    }
    hide Land;
  }

  // ---------------------------------------------------------------- two files

  /** Records as parsing yields them: with a row, the one their payload normalises to. */
  ghost predicate WellParsed(rowOf: (string, string) -> Normalized, rs: seq<Record>)
  {
    forall i :: 0 <= i < |rs| ==> Parsed(rowOf, rs[i]) && !rs[i].row.Missing?
  }

  lemma LandedStep(t: Tables, rs: seq<Record>, i: nat, j: nat)
    requires i < j <= |rs| && !rs[i].row.Missing?
    ensures Landed(t, rs, i, j) == Landed(LandOne(t, rs[i]), rs, i + 1, j)
  {
  }

  lemma LandOneKeeps(rowOf: (string, string) -> Normalized, t: Tables, r: Record)
    requires Parsed(rowOf, r) && !r.row.Missing?
    ensures Within(t, LandOne(t, r))
    ensures Paired(rowOf, t) ==> Paired(rowOf, LandOne(t, r))
  {
    if r.key !in t.raw {
      LandWithin(t, r, 0);
      hide Land;
      if Paired(rowOf, t) { LandKeepsPaired(rowOf, t, r, 0); }
    }
    hide Paired;
  }

  /** Landing a file only adds to the tables, and keeps events and rows paired. */
  lemma {:induction false} LandedKeeps(rowOf: (string, string) -> Normalized, t: Tables, rs: seq<Record>, i: nat,
                                       j: nat)
    requires WellParsed(rowOf, rs) && i <= j <= |rs|
    ensures Within(t, Landed(t, rs, i, j))
    ensures Paired(rowOf, t) ==> Paired(rowOf, Landed(t, rs, i, j))
    decreases j - i
  {
    hide Within;
    hide Paired;
    if i < j {
      var next := LandOne(t, rs[i]);
      LandedStep(t, rs, i, j);
      LandOneKeeps(rowOf, t, rs[i]);
      LandedKeeps(rowOf, next, rs, i + 1, j);
      hide Landed;
      hide LandOne;
      WithinTrans(t, next, Landed(next, rs, i + 1, j));
    } else {
      SelfWithin(t);
    }
  }

  lemma SelfWithin(t: Tables)
    ensures Within(t, t)
  {
  }

  /** The raw event of `r` is already there, so its row is too. */
  lemma EventHoldsRow(rowOf: (string, string) -> Normalized, u: Tables, r: Record)
    requires Paired(rowOf, u) && Parsed(rowOf, r) && r.key in u.raw && u.raw[r.key] == EventOf(r, 0)
    ensures Held(u, r.row)
  {
    assert EventHasRow(rowOf, u, r.key);
  }

  lemma RowOutcomeAgrees(v: Tables, u: Tables, r: Record)
    requires r.key !in v.raw && Agree(u, Land(v, r, 0))
    ensures Agree(u, LandRow(v, r.row))
    ensures r.key in u.raw ==> u.raw[r.key] == EventOf(r, 0)
  {
    var raw := v.raw[r.key := EventOf(r, 0)];
    RowLeavesEvents(v, r.row, raw);
    RowLeavesEvents(v, r.row, v.raw);
    hide LandRow;
    assert AgreeMap(u.raw, v.raw) by {
      assert SubMap(v.raw, raw);
    }
  }

  /** Merging tables in which the raw events are replaced. */
  lemma MergeEvents(v: Tables, u: Tables, raw: map<string, RawEvent>)
    ensures Merge(v.(raw := raw), u) == Merge(v, u).(raw := raw + u.raw)
  {
  }

  lemma MergeLand(v: Tables, u: Tables, r: Record)
    requires r.key !in v.raw && Agree(u, LandRow(v, r.row))
    ensures Merge(Land(v, r, 0), u) == LandRow(Merge(v, u), r.row).(raw := v.raw[r.key := EventOf(r, 0)] + u.raw)
  {
    var raw := v.raw[r.key := EventOf(r, 0)];
    RowLeavesEvents(v, r.row, raw);
    LandRowMerge(v, u, r.row);
    MergeEvents(LandRow(v, r.row), u, raw);
    hide LandRow;
    hide Merge;
  }

  lemma PutBeside(a: map<string, RawEvent>, b: map<string, RawEvent>, k: string, event: RawEvent)
    ensures k in b ==> a[k := event] + b == a + b
    ensures k !in b ==> a[k := event] + b == (a + b)[k := event]
  {
  }

  lemma MergeRaw(v: Tables, u: Tables)
    ensures Merge(v, u).raw == v.raw + u.raw
  {
  }

  /** The event is in the other tables already. */
  lemma MergeKnown(rowOf: (string, string) -> Normalized, v: Tables, u: Tables, r: Record)
    requires Paired(rowOf, u) && Parsed(rowOf, r) && r.key !in v.raw && r.key in u.raw && Agree(u, Land(v, r, 0))
    ensures Merge(Land(v, r, 0), u) == Merge(v, u)
  {
    hide *;
    RowOutcomeAgrees(v, u, r);
    EventHoldsRow(rowOf, u, r);
    MergeLand(v, u, r);
    HeldInMerge(v, u, r.row);
    PutBeside(v.raw, u.raw, r.key, EventOf(r, 0));
    MergeRaw(v, u);
  }

  lemma MergeNew(v: Tables, u: Tables, r: Record)
    requires r.key !in v.raw && r.key !in u.raw && Agree(u, Land(v, r, 0))
    ensures Merge(Land(v, r, 0), u) == Land(Merge(v, u), r, 0)
  {
    assert Land(Merge(v, u), r, 0) == LandRow(Merge(v, u).(raw := Merge(v, u).raw[r.key := EventOf(r, 0)]), r.row);
    hide *;
    RowOutcomeAgrees(v, u, r);
    MergeLand(v, u, r);
    PutBeside(v.raw, u.raw, r.key, EventOf(r, 0));
    MergeRaw(v, u);
    RowLeavesEvents(Merge(v, u), r.row, (v.raw + u.raw)[r.key := EventOf(r, 0)]);
  }

  /** A record lands beside other tables as it lands alone, if the outcome agrees with them. */
  lemma MergeStep(rowOf: (string, string) -> Normalized, v: Tables, u: Tables, r: Record)
    requires Paired(rowOf, u) && Parsed(rowOf, r) && !r.row.Missing? && Agree(u, LandOne(v, r))
    ensures LandOne(Merge(v, u), r) == Merge(LandOne(v, r), u)
  {
    assert Merge(v, u).raw.Keys == v.raw.Keys + u.raw.Keys;
    hide Merge;
    hide Paired;
    hide Agree;
    hide Land;
    if r.key !in v.raw {
      if r.key in u.raw { MergeKnown(rowOf, v, u, r); } else { MergeNew(v, u, r); }
    }
  }

  lemma {:induction false} LandedBeside(rowOf: (string, string) -> Normalized, v: Tables, u: Tables, rs: seq<Record>,
                                        i: nat)
    requires WellParsed(rowOf, rs) && Paired(rowOf, u) && i <= |rs| && Agree(u, Landed(v, rs, i, |rs|))
    ensures Landed(Merge(v, u), rs, i, |rs|) == Merge(Landed(v, rs, i, |rs|), u)
    decreases |rs| - i
  {
    if i < |rs| {
      var next := LandOne(v, rs[i]);
      LandedStep(v, rs, i, |rs|);
      LandedStep(Merge(v, u), rs, i, |rs|);
      LandedKeeps(rowOf, next, rs, i + 1, |rs|);
      hide Landed;
      hide LandOne;
      hide Paired;
      hide Merge;
      PartAgrees(u, next, Landed(next, rs, i + 1, |rs|));
      MergeStep(rowOf, v, u, rs[i]);
      LandedBeside(rowOf, next, u, rs, i + 1);
    }
  }

  lemma MergeWithPart(t: Tables, u: Tables)
    requires Within(t, u)
    ensures Merge(t, u) == u
  {
    assert t.raw + u.raw == u.raw && t.payments + u.payments == u.payments;
    assert t.settlements + u.settlements == u.settlements && t.banks + u.banks == u.banks;
    assert t.ledgers + u.ledgers == u.ledgers;
  }

  lemma LandedAfter(rowOf: (string, string) -> Normalized, t: Tables, u: Tables, xs: seq<Record>)
    requires WellParsed(rowOf, xs) && Paired(rowOf, u) && Within(t, u) && Agree(u, Landed(t, xs, 0, |xs|))
    ensures Landed(u, xs, 0, |xs|) == Merge(Landed(t, xs, 0, |xs|), u)
  {
    MergeWithPart(t, u);
    LandedBeside(rowOf, t, u, xs, 0);
  }

  /** Two files can be delivered in either order exactly when what they leave, each delivered alone, agrees wherever
      both leave an entry. */
  lemma FileOrderIff(rowOf: (string, string) -> Normalized, t: Tables, ys: seq<Record>, xs: seq<Record>)
    requires WellParsed(rowOf, ys) && WellParsed(rowOf, xs) && Paired(rowOf, t)
    ensures var u, v := Landed(t, ys, 0, |ys|), Landed(t, xs, 0, |xs|);
      Landed(u, xs, 0, |xs|) == Landed(v, ys, 0, |ys|) <==> Agree(u, v)
  {
    var u, v := Landed(t, ys, 0, |ys|), Landed(t, xs, 0, |xs|);
    LandedKeeps(rowOf, t, ys, 0, |ys|);
    LandedKeeps(rowOf, t, xs, 0, |xs|);
    LandedKeeps(rowOf, u, xs, 0, |xs|);
    LandedKeeps(rowOf, v, ys, 0, |ys|);
    hide Landed;
    hide Paired;
    hide WellParsed;
    hide Within;
    if Landed(u, xs, 0, |xs|) == Landed(v, ys, 0, |ys|) {
      PartsAgree(u, v, Landed(u, xs, 0, |xs|));
    }
    if Agree(u, v) {
      AgreeIsSymmetric(u, v);
      hide Agree;
      LandedAfter(rowOf, t, u, xs);
      LandedAfter(rowOf, t, v, ys);
      AgreeingTablesMerge(u, v);
    }
  }

  lemma AgreeIsSymmetric(t: Tables, u: Tables)
    requires Agree(t, u)
    ensures Agree(u, t)
  {
  }

  /** When redelivery converges with another file in between: a file cut off by any faults, then another one, then the
      first again, reaches the tables of the undisturbed order exactly when what the whole first file leaves agrees with
      what the other leaves on top of the part that had landed. */
  lemma OvertakenConvergesIff(rowOf: (string, string) -> Normalized, s: State, rs: seq<Record>, xs: seq<Record>,
                              faults: nat -> Env, e: nat -> Env, f: nat -> Env)
    requires CacheSafe(s) && Paired(rowOf, s.memory.tables) && FaultFree(e) && FaultFree(f)
    requires WellParsed(rowOf, rs) && WellParsed(rowOf, xs)
    ensures var cut := Pass(s, rs, faults, 0).state;
      var overtaken := Pass(Pass(Repaired(cut), xs, e, 0).state, rs, f, 0).state;
      var straight := Pass(Pass(Repaired(s), rs, e, 0).state, xs, f, 0).state;
      Blank(overtaken.memory.tables) == Blank(straight.memory.tables) <==>
      Agree(Landed(Blank(s.memory.tables), rs, 0, |rs|), Landed(Blank(cut.memory.tables), xs, 0, |xs|))
  {
    var t, cut := Blank(s.memory.tables), Pass(s, rs, faults, 0).state;
    var j := PassLands(s, rs, faults, 0);
    PassKeeps(s, rs, faults, 0);
    BlankPaired(rowOf, s.memory.tables);
    var part := Blank(cut.memory.tables);
    LandedKeeps(rowOf, t, rs, 0, j);
    LandedTwice(t, rs, 0, j, |rs|);
    FileOrderIff(rowOf, part, rs, xs);
    TwoPlainPasses(Repaired(cut), xs, rs, e, f, rowOf);
    TwoPlainPasses(Repaired(s), rs, xs, e, f, rowOf);
    hide *;
  }

  lemma TwoPlainPasses(s: State, rs: seq<Record>, xs: seq<Record>, e: nat -> Env, f: nat -> Env,
                       rowOf: (string, string) -> Normalized)
    requires CacheSafe(s) && s.memory.failAfter == 0 && FaultFree(e) && FaultFree(f)
    requires WellParsed(rowOf, rs) && WellParsed(rowOf, xs)
    ensures Blank(Pass(Pass(s, rs, e, 0).state, xs, f, 0).state.memory.tables) ==
      Landed(Landed(Blank(s.memory.tables), rs, 0, |rs|), xs, 0, |xs|)
  {
    assert forall r :: r in rs ==> !r.row.Missing?;
    PlainPassSucceeds(s, rs, e, 0);
    PlainPassLands(s, rs, e, 0);
    PlainPassLands(Pass(s, rs, e, 0).state, xs, f, 0);
  }

  function IdempotencyKey(source: string, externalId: string, eventType: string): string
  {
    source + ":" + externalId + ":" + eventType
  }

  /** Sources and event types without a colon, and any external identifiers, are told apart by the key. */
  lemma KeyIdentifies(source: string, externalId: string, eventType: string, source': string, externalId': string,
                      eventType': string)
    requires ':' !in source && ':' !in source' && ':' !in eventType && ':' !in eventType'
    ensures IdempotencyKey(source, externalId, eventType) == IdempotencyKey(source', externalId', eventType') <==>
      source == source' && externalId == externalId' && eventType == eventType'
  {
    KeyParts(source, externalId, eventType);
    KeyParts(source', externalId', eventType');
    if IdempotencyKey(source, externalId, eventType) == IdempotencyKey(source', externalId', eventType') {
      hide IdempotencyKey;
      SplitAtFirst(':', source, externalId + ([':'] + eventType), source', externalId' + ([':'] + eventType'));
      SplitAtLast(':', externalId, eventType, externalId', eventType');
    }
  }

  lemma KeyParts(source: string, externalId: string, eventType: string)
    ensures IdempotencyKey(source, externalId, eventType) == source + ([':'] + (externalId + ([':'] + eventType)))
  {
  }

  /** A settlement record as parsed: its key names settlement and entity, not the line type. */
  ghost predicate SettlementRecord(r: Record)
  {
    && r.row.Settle?
    && var l := r.row.settlement;
       r.key == IdempotencyKey("settlement", l.settlementId + ":" + l.entityId, "settlement.line")
  }

  /** Two lines of one settlement and entity that differ in line type have different rows but one key, so the second
      is reported as a duplicate and never stored. */
  lemma SecondLineTypeIsDropped(s: State, a: Record, b: Record, e: Env, f: Env)
    requires CacheSafe(s) && s.memory.failAfter == 0 && Plain(e) && Plain(f)
    requires SettlementRecord(a) && SettlementRecord(b)
    requires a.row.settlement.settlementId == b.row.settlement.settlementId
    requires a.row.settlement.entityId == b.row.settlement.entityId
    requires a.row.settlement.lineType != b.row.settlement.lineType
    requires !Held(s.memory.tables, b.row)
    ensures var (next, _) := Persist(s, a, e); var (last, verdict) := Persist(next, b, f);
      verdict.Duplicate? && !Held(last.memory.tables, b.row)
  {
    var next := Persist(s, a, e).0;
    PersistPlain(s, a, e);
    PersistKeeps(s, a, e);
    PersistPlain(next, b, f);
    hide Persist;
    assert a.key == b.key;
    var x, y := a.row.settlement, b.row.settlement;
    SuffixDiffers(x.settlementId + "|" + x.entityId + "|", x.lineType, y.lineType);
    assert SettlementKey(a.row.settlement) != SettlementKey(b.row.settlement);
  }

  lemma SuffixDiffers(prefix: string, a: string, b: string)
    requires a != b
    ensures prefix + a != prefix + b
  {
    assert (prefix + a)[|prefix|..] == a && (prefix + b)[|prefix|..] == b;
  }

  // ---------------------------------------------------------------- the audit trail

  ghost function Audited(s: State): set<string> { if s.audit.None? then {} else set k | k in s.audit.value }

  /** Committed events without an audit entry. */
  ghost function Gap(s: State): set<string> { Raw(s).Keys - Audited(s) }

  /** The event lands in this call and no audit entry does: the commit goes unanswered, or the audit write fails. */
  ghost predicate LosesEntry(s: State, r: Record, e: Env)
  {
    && !(e.answers && r.key in s.cache - e.evicted)
    && Lands(e.tx)
    && Tx(s.memory, r, e.now).1.NoError?
    && (e.tx.Unanswered? || !Lands(e.auditWrite))
  }

  lemma PersistGap(s: State, r: Record, e: Env)
    requires CacheSafe(s) && s.audit.Some? && Audited(s) <= Raw(s).Keys
    ensures var next := Persist(s, r, e).0;
      && next.audit.Some?
      && Audited(next) <= Raw(next).Keys
      && Gap(next) == Gap(s) + (if LosesEntry(s, r, e) then {r.key} else {})
      && (LosesEntry(s, r, e) ==> r.key !in Raw(s) && Persist(s, r, e).1.Failed?)
  {
    TxCommitsOrNothing(s.memory, r, e.now);
    hide Tx;
    var next := Persist(s, r, e).0;
    if next.audit != s.audit {
      assert Audited(next) == Audited(s) + {r.key};
    }
  }

  /** The first record of the pass that loses its audit entry; the pass ends there. */
  ghost function Losses(s: State, rs: seq<Record>, es: nat -> Env, i: nat): set<string>
    requires i <= |rs|
    decreases |rs| - i
  {
    if i == |rs| then {}
    else if LosesEntry(s, rs[i], es(i)) then {rs[i].key}
    else if Persist(s, rs[i], es(i)).1.Failed? then {}
    else Losses(Persist(s, rs[i], es(i)).0, rs, es, i + 1)
  }

  /** Exactly the events that land in a call in which no audit entry does stay without one. No later delivery closes a
      gap: the key is taken, so the record counts as a duplicate. */
  lemma {:induction false} GapsAreLosses(s: State, rs: seq<Record>, es: nat -> Env, i: nat)
    requires CacheSafe(s) && s.audit.Some? && Audited(s) <= Raw(s).Keys && i <= |rs|
    ensures var last := Pass(s, rs, es, i).state;
      && last.audit.Some?
      && Audited(last) <= Raw(last).Keys
      && Gap(last) == Gap(s) + Losses(s, rs, es, i)
    decreases |rs| - i
  {
    if i < |rs| {
      PersistKeeps(s, rs[i], es(i));
      PersistGap(s, rs[i], es(i));
      var (next, verdict) := Persist(s, rs[i], es(i));
      hide Persist;
      hide Gap;
      hide Audited;
      hide CacheSafe;
      hide LosesEntry;
      if !verdict.Failed? { GapsAreLosses(next, rs, es, i + 1); }
    }
  }

  /** Over any further calls, faulty or not, redeliveries included, a gap stays open. */
  lemma {:induction false} GapNeverCloses(lib: Library, secret: string, s: State, envelopes: seq<Envelope>,
                                          ess: nat -> nat -> Env, k: nat)
    requires CacheSafe(s) && s.audit.Some? && Audited(s) <= Raw(s).Keys && k <= |envelopes|
    ensures var last := Calls(lib, secret, s, envelopes, ess, k).0;
      last.audit.Some? && Audited(last) <= Raw(last).Keys && Gap(s) <= Gap(last)
    decreases |envelopes| - k
  {
    if k < |envelopes| {
      var admitted := Admit(lib, secret, envelopes[k]);
      ProcessedKeeps(lib, secret, s, envelopes[k], ess(k));
      if admitted.Some? { GapsAreLosses(s, admitted.value, ess(k), 0); }
      hide Pass;
      hide Gap;
      hide Audited;
      hide CacheSafe;
      hide Extends;
      GapNeverCloses(lib, secret, Processed(lib, secret, s, envelopes[k], ess(k)).0, envelopes, ess, k + 1);
    }
  }
}
